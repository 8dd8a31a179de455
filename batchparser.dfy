/**
 * The Windows batch header: after any "#" lines, a run of `REM` lines. The
 * first one starts the header, every later line that contains "REM"
 * anywhere continues it, and the first line without "REM" ends it. Section
 * titles are unindented `word:` lines whose inline text is kept.
 */
module WindowsBatchScriptParser {
  import opened Common
  import opened ScriptParser

  // ---------------------------------------------------------------------------
  // ReadHeader

  /** Lines the first loop passes over: not blank, and trimmed they start "#" (or are empty). */
  predicate IsSkipped(line: string)
  {
    !IsBlank(line) && (var t := Trim(line); StartsWith(t, "#") || t == "")
  }

  /** The line that starts a header: not blank, and trimmed it starts "REM". */
  predicate Opens(line: string)
  {
    !IsBlank(line) && StartsWith(Trim(line), "REM")
  }

  /** A line that continues the header: it contains "REM" somewhere. */
  predicate HasRem(line: string)
  {
    Contains(line, "REM")
  }

  /** A header line without its "REM " or "REM" (the first three characters, whatever they are). */
  function StripRem(line: string): string
    requires |line| >= 3
  {
    if StartsWith(line, "REM ") then line[4..] else line[3..]
  }

  lemma HasRemLength(line: string)
    requires HasRem(line)
    ensures |line| >= 3
  {
  }

  /** The stripped pieces of the lines that continue the header. */
  function StripAll(body: seq<string>): (r: seq<string>)
    requires forall j :: 0 <= j < |body| ==> HasRem(body[j])
    ensures |r| == |body|
    decreases |body|
  {
    if body == [] then []
    else
      HasRemLength(body[|body| - 1]);
      StripAll(body[..|body| - 1]) + [StripRem(body[|body| - 1])]
  }

  lemma AllHaveRem(lines: seq<string>, a: nat, b: nat)
    requires a <= b <= |lines|
    requires forall j :: a <= j < b ==> HasRem(lines[j])
    ensures forall j :: 0 <= j < |lines[a..b]| ==> HasRem(lines[a..b][j])
  {
    assert forall j :: 0 <= j < b - a ==> lines[a..b][j] == lines[a + j];
  }

  /**
   * The header lines `ReadHeader` yields: the opening line and every line
   * after it that contains "REM", stripped, as one buffer split at line
   * breaks; none when there is no opening line or the input ends before a
   * line without "REM".
   */
  function Header(lines: seq<string>): seq<string>
  {
    HeaderAt(lines, Skip(lines, 0, IsSkipped))
  }

  /** The header when the first line not skipped is at `k`. */
  function HeaderAt(lines: seq<string>, k: nat): seq<string>
    requires k <= |lines|
  {
    if k == |lines| || !Opens(lines[k]) then [] else BodyHeader(lines, k + 1, Opening(lines[k]))
  }

  /** The opening line's contribution: trimmed, without its "REM " or "REM". */
  function Opening(line: string): string
    requires Opens(line)
  {
    var t := Trim(line);
    assert |t| >= 3;
    StripRem(t)
  }

  /** The header made of the opening piece and the lines from `start` up to the first without "REM". */
  function BodyHeader(lines: seq<string>, start: nat, first: string): seq<string>
    requires start <= |lines|
  {
    var e := Skip(lines, start, HasRem);
    if e == |lines| then []
    else
      AllHaveRem(lines, start, e);
      SplitNewlines(LinesText([first] + StripAll(lines[start..e])))
  }

  lemma BlankStartsNot(s: string, p: string)
    requires IsBlank(s) && p != [] && !IsWhite(p[0])
    ensures !StartsWith(s, p)
  {
  }

  /** `ReadHeader`: reads lines one at a time, as from the script's `TextReader`. */
  method ReadHeader(lines: seq<string>) returns (header: seq<string>)
    ensures header == Header(lines)
  {
    var i := SkipLeading(lines);
    assert Header(lines) == HeaderAt(lines, i);
    if i < |lines| && !IsBlank(lines[i]) {
      var line := Trim(lines[i]);
      if StartsWith(line, "REM ") || StartsWith(line, "REM") {
        assert Opens(lines[i]) by {
          if StartsWith(line, "REM ") { assert line[..3] == line[..4][..3]; }
        }
        assert Opening(lines[i]) == if StartsWith(line, "REM ") then line[4..] else line[3..];
        header := ReadBody(lines, i + 1, if StartsWith(line, "REM ") then line[4..] else line[3..]);
        return;
      }
      assert !Opens(lines[i]);
    }
    header := [];
  }

  /** The first loop of `ReadHeader`: the position of the first line that is blank or not a "#" line. */
  method SkipLeading(lines: seq<string>) returns (i: nat)
    ensures i == Skip(lines, 0, IsSkipped)
  {
    i := 0;
    while i < |lines|
      invariant i <= |lines|
      invariant forall j :: 0 <= j < i ==> IsSkipped(lines[j])
    {
      var l := lines[i];
      if IsBlank(l) {
        break;
      }
      var t := Trim(l);
      if StartsWith(t, "#") || t == "" {
        i := i + 1;
        continue;
      }
      break;
    }
    SkipTo(lines, 0, i, IsSkipped);
  }

  /** The second loop of `ReadHeader`: appends stripped lines while they contain "REM". */
  method ReadBody(lines: seq<string>, start: nat, first: string) returns (header: seq<string>)
    requires start <= |lines|
    ensures header == BodyHeader(lines, start, first)
  {
    var buffer := first + NewLine;
    var i := start;
    assert [first] + StripAll(lines[start..i]) == [first];
    while i < |lines| && IndexOf(lines[i], "REM") >= 0
      invariant start <= i <= |lines|
      invariant forall j :: start <= j < i ==> HasRem(lines[j])
      invariant buffer == (AllHaveRem(lines, start, i); LinesText([first] + StripAll(lines[start..i])))
    {
      var l := lines[i];
      assert HasRem(l);
      ghost var pieces := [first] + StripAll(lines[start..i]);
      buffer := buffer + (if StartsWith(l, "REM ") then l[4..] else l[3..]) + NewLine;
      var next := i + 1;
      ReadBodyStep(lines, start, i, next, first);
      LinesTextAppend(pieces, StripRem(l));
      i := next;
    }
    SkipTo(lines, start, i, HasRem);
    if i < |lines| {
      AllHaveRem(lines, start, i);
      assert BodyHeader(lines, start, first) == SplitNewlines(LinesText([first] + StripAll(lines[start..i])));
      header := SplitNewlines(buffer);
    } else {
      header := [];
    }
  }

  lemma ReadBodyStep(lines: seq<string>, start: nat, i: nat, next: nat, first: string)
    requires start <= i < |lines| && next == i + 1
    requires forall j :: start <= j <= i ==> HasRem(lines[j])
    ensures (AllHaveRem(lines, start, i); AllHaveRem(lines, start, next);
      [first] + StripAll(lines[start..next]) == [first] + StripAll(lines[start..i]) + [StripRem(lines[i])])
  {
    AllHaveRem(lines, start, i);
    AllHaveRem(lines, start, next);
    var b := lines[start..next];
    assert b[..|b| - 1] == lines[start..i];
  }

  // The header's properties

  /** The header body after line `k` of `rest` is the one after line `j = |pre| + k` of `pre + rest`. */
  lemma BodyHeaderShift(pre: seq<string>, rest: seq<string>, k: nat, j: nat, first: string)
    requires k < |rest| && j == |pre| + k
    ensures BodyHeader(pre + rest, j + 1, first) == BodyHeader(rest, k + 1, first)
  {
    SkipShiftNext(pre, rest, k, j, HasRem);
    if Skip(rest, k + 1, HasRem) < |rest| {
      ClosedShift(pre, rest, k, j, Skip(rest, k + 1, HasRem), Skip(pre + rest, j + 1, HasRem), first);
    } else {
      UnclosedShift(pre, rest, k, j, first);
    }
  }

  lemma ClosedShift(pre: seq<string>, rest: seq<string>, k: nat, j: nat, e: nat, ee: nat, first: string)
    requires k < e < |rest| && j == |pre| + k
    requires e == Skip(rest, k + 1, HasRem)
    requires ee == Skip(pre + rest, j + 1, HasRem) && ee == |pre| + e
    ensures BodyHeader(pre + rest, j + 1, first) == BodyHeader(rest, k + 1, first)
  {
    var s := pre + rest;
    assert s[j + 1..ee] == rest[k + 1..e];
  }

  lemma UnclosedShift(pre: seq<string>, rest: seq<string>, k: nat, j: nat, first: string)
    requires k < |rest| && j == |pre| + k
    requires Skip(rest, k + 1, HasRem) == |rest|
    requires Skip(pre + rest, j + 1, HasRem) == |pre| + |rest|
    ensures BodyHeader(pre + rest, j + 1, first) == BodyHeader(rest, k + 1, first) == []
  {
  }

  lemma HeaderAtShift(pre: seq<string>, rest: seq<string>, k: nat, j: nat)
    requires k <= |rest| && j == |pre| + k
    ensures HeaderAt(pre + rest, j) == HeaderAt(rest, k)
  {
    if k < |rest| {
      if Opens(rest[k]) { OpeningShift(pre, rest, k, j); } else { NoOpeningShift(pre, rest, k, j); }
    }
  }

  lemma NoOpeningShift(pre: seq<string>, rest: seq<string>, k: nat, j: nat)
    requires k < |rest| && !Opens(rest[k]) && j == |pre| + k
    ensures HeaderAt(pre + rest, j) == HeaderAt(rest, k) == []
  {
    var s := pre + rest;
    assert s[j] == rest[k];
  }

  lemma OpeningShift(pre: seq<string>, rest: seq<string>, k: nat, j: nat)
    requires k < |rest| && Opens(rest[k]) && j == |pre| + k
    ensures HeaderAt(pre + rest, j) == HeaderAt(rest, k)
  {
    var s := pre + rest;
    assert s[j] == rest[k];
    BodyHeaderShift(pre, rest, k, j, Opening(rest[k]));
  }

  /** Leading "#" lines are skipped: the header is that of the lines after them. */
  lemma SkipsComments(pre: seq<string>, rest: seq<string>)
    requires forall j :: 0 <= j < |pre| ==> IsSkipped(pre[j])
    ensures Header(pre + rest) == Header(rest)
  {
    var s := pre + rest;
    var k := Skip(rest, 0, IsSkipped);
    var j := Skip(s, 0, IsSkipped);
    assert forall i :: 0 <= i < |pre| ==> s[i] == pre[i];
    SkipFrom(s, 0, |pre|, IsSkipped);
    SkipShift(pre, rest, 0, IsSkipped);
    assert j == |pre| + k;
    HeaderAtShift(pre, rest, k, j);
  }


  /** A blank line before any header line means there is no header. */
  lemma BlankLineNoHeader(b: string, rest: seq<string>)
    requires IsBlank(b)
    ensures Header([b] + rest) == []
  {
  }

  /** The opening line is one that no skip applies to. */
  lemma OpensNotSkipped(open: string)
    requires Opens(open)
    ensures !IsSkipped(open)
  {
    var t := Trim(open);
    StartsWithFirst(t, "REM");
    if StartsWith(t, "#") { StartsWithFirst(t, "#"); }
  }

  /** If the input ends while lines still contain "REM", the header is empty. */
  lemma UnterminatedHeader(open: string, body: seq<string>)
    requires Opens(open)
    requires forall j :: 0 <= j < |body| ==> HasRem(body[j])
    ensures Header([open] + body) == []
  {
    OpensNotSkipped(open);
    var s := [open] + body;
    assert forall j :: 1 <= j < |s| ==> s[j] == body[j - 1];
    SkipTo(s, 1, |s|, HasRem);
  }

  /**
   * The header of an opening `REM` line, lines that contain "REM" and a line
   * without it: the opening and the body lines, stripped, in order.
   */
  lemma BlockHeader(open: string, body: seq<string>, close: string, rest: seq<string>)
    requires Opens(open)
    requires forall j :: 0 <= j < |body| ==> HasRem(body[j])
    requires !HasRem(close)
    ensures Header([open] + body + [close] + rest) ==
      SplitNewlines(LinesText([Opening(open)] + StripAll(body)))
  {
    OpensNotSkipped(open);
    var s := [open] + body + [close] + rest;
    BlockSlices(open, body, close, rest);
    SkipTo(s, 1, |body| + 1, HasRem);
  }

  /** When no stripped line holds a line break, the header is exactly the stripped lines and a final "". */
  lemma PlainBlockHeader(open: string, body: seq<string>, close: string, rest: seq<string>)
    requires Opens(open)
    requires forall j :: 0 <= j < |body| ==> HasRem(body[j])
    requires !HasRem(close)
    requires IsPlainLine(Opening(open))
    requires forall j :: 0 <= j < |body| ==> IsPlainLine(StripAll(body)[j])
    ensures Header([open] + body + [close] + rest) == [Opening(open)] + StripAll(body) + [""]
  {
    BlockHeader(open, body, close, rest);
    PlainPieces(Opening(open), StripAll(body));
  }

  lemma PlainPieces(first: string, more: seq<string>)
    requires IsPlainLine(first)
    requires forall j :: 0 <= j < |more| ==> IsPlainLine(more[j])
    ensures SplitNewlines(LinesText([first] + more)) == [first] + more + [""]
  {
    PlainCons(first, more);
    SplitNewlinesLinesText([first] + more);
  }

  lemma PlainCons(first: string, more: seq<string>)
    requires IsPlainLine(first)
    requires forall j :: 0 <= j < |more| ==> IsPlainLine(more[j])
    ensures forall j :: 0 <= j < |[first] + more| ==> IsPlainLine(([first] + more)[j])
  {
    var pieces := [first] + more;
    forall j | 0 <= j < |pieces| ensures IsPlainLine(pieces[j]) {
      if j > 0 { assert pieces[j] == more[j - 1]; }
    }
  }

  /** A line with "REM" in the middle continues the header and loses its first three characters. */
  lemma MidLineRem()
    ensures HasRem("  REM x")
    ensures StripRem("  REM x") == "EM x"
  {
    assert OccursAt("  REM x", "REM", 2);
    assert "  REM x"[0] == ' ';
    assert !StartsWith("  REM x", "REM ") by {
      if StartsWith("  REM x", "REM ") { StartsWithFirst("  REM x", "REM "); }
    }
  }

  // ---------------------------------------------------------------------------
  // ParseLine and ParseSections

  /** `startsWithWhiteSpace`. */
  predicate StartsWithWhiteSpace(s: string)
  {
    IsBlank(s) || IsWhite(s[0])
  }

  /** An unindented `word: value` line is a title whose content is the inline value. */
  function ParseLine(line: string): (r: ParsedLine)
    ensures r.title.Some? <==> MatchTitle(line).Some? && !StartsWithWhiteSpace(line)
    ensures r.title.Some? ==> r.title.value == MatchTitle(line).value.0 && r.content == Some(MatchTitle(line).value.1)
    ensures r.title.None? ==> r.content == Some(line)
  {
    match MatchTitle(line)
    case Some((title, value)) =>
      if StartsWithWhiteSpace(line) then ParsedLine(Some(line), None) else ParsedLine(Some(value), Some(title))
    case None => ParsedLine(Some(line), None)
  }

  /** The value after "title:" becomes the content of a titled line. */
  lemma ParseLineKeepsInline(s: string, i: nat, j: nat, w: nat, x: nat)
    requires TitleLineAt(s, i, j, w, x)
    ensures ParseLine(s) == ParsedLine(Some(s[w..x]), Some(s[..i]))
  {
    MatchTitleAt(s, i, j, w, x);
    assert !IsWhite(s[0]) by { assert IsWordChar(s[0]); }
    assert !IsBlank(s);
  }

  /**
   * The arguments format: the explicit `AhArgsFormat` text, or else "$Name"
   * of every parameter, whatever its usage; it is validated whenever it is
   * not empty.
   */
  function ArgsFormat(format: string, parameters: seq<ParamInfo>, validate: string -> Option<string>): (r: (string, seq<string>))
    ensures format != "" ==> r.0 == format && (r.1 == [] <==> validate(format).None?)
    ensures format == "" ==> r.0 == FormatOf(parameters)
    ensures format == "" ==> (r.1 == [] <==> parameters == [] || validate(r.0).None?)
    ensures forall w :: w in r.1 ==> StartsWith(w, FormatWarning)
  {
    if format != "" then (format, FormatWarnings(format, validate))
    else if |parameters| > 0 then (FormatOf(parameters), FormatWarnings(FormatOf(parameters), validate))
    else ("", [])
  }

  /**
   * `ParseSections`. The SDK's `ScriptParameterInfo.Parse` and
   * `ProcessedString.Parse` are the inputs `parse` and `validate`.
   */
  function ParseSections(secs: seq<(string, string)>, parse: string -> Result<ParamInfo>, validate: string -> Option<string>): (r: ScriptInfo)
    ensures Select(secs, "AhDescription") == [] ==> r.summary == Trim(Merged(secs, ""))
    ensures !IsBlank(Trim(Merged(secs, "AhDescription"))) ==> r.summary == Trim(Merged(secs, "AhDescription"))
    ensures |r.parameters| <= |GetParameters(secs, ParameterTitles)| <= |r.parameters| + |r.warnings|
    ensures r.execMode == Trim(Merged(secs, "AhExecMode"))
    ensures r.configValues == ConfigurationValues(secs)
    ensures Trim(Merged(secs, "AhArgsFormat")) != "" ==> r.argsFormat == Trim(Merged(secs, "AhArgsFormat"))
    ensures Trim(Merged(secs, "AhArgsFormat")) == "" ==> r.argsFormat == FormatOf(r.parameters)
    ensures forall w :: w in r.warnings ==> StartsWith(w, ParameterWarning) || StartsWith(w, FormatWarning)
  {
    var (parameters, paramWarnings) := ParseParameters(GetParameters(secs, ParameterTitles), parse);
    var (argsFormat, formatWarnings) := ArgsFormat(Trim(Merged(secs, "AhArgsFormat")), parameters, validate);
    ScriptInfo(parameters, Summary(secs), paramWarnings + formatWarnings, argsFormat, ConfigurationValues(secs), Trim(Merged(secs, "AhExecMode")))
  }

  function HeaderSections(lines: seq<string>): seq<(string, string)>
  {
    Sections(Header(lines), ParseLine)
  }

  /** The whole parse: header, sections, script information. */
  method Parse(lines: seq<string>, parse: string -> Result<ParamInfo>, validate: string -> Option<string>) returns (info: ScriptInfo)
    ensures info == ParseSections(HeaderSections(lines), parse, validate)
  {
    var header := ReadHeader(lines);
    var list := ParseInternal(header, ParseLine);
    info := ParseSections(list.sections, parse, validate);
  }
}
