/**
 * The language-independent half of script-header parsing. A language's
 * header reader yields lines, its `ParseLine` classifies each one as a
 * section title or as content, and `ParseInternal` collects them into an
 * ordered list of titled sections. `SectionList` answers queries on that
 * list and groups the `Ah*` configuration directives. The module also holds
 * the `ScriptInfo` and `ScriptParameterInfo` records the language parsers
 * fill in, and the pieces of `ParseSections` the parsers share.
 */
module ScriptParser {
  import opened Common

  /** What a language's `ParseLine` returns: at most one of the two is a title. */
  datatype ParsedLine = ParsedLine(content: Option<string>, title: Option<string>)

  // ---------------------------------------------------------------------------
  // Queries on the section list

  /** The indexer: the values of the sections titled `title` (ignoring case), in order. */
  function Select(secs: seq<(string, string)>, title: string): (r: seq<string>)
    ensures |r| <= |secs|
    ensures forall i :: 0 <= i < |secs| && EqIC(secs[i].0, title) ==> secs[i].1 in r
    ensures forall x :: x in r ==> exists i :: 0 <= i < |secs| && EqIC(secs[i].0, title) && secs[i].1 == x
    decreases |secs|
  {
    if secs == [] then []
    else
      var rest := Select(secs[1..], title);
      assert forall i :: 1 <= i < |secs| ==> secs[i] == secs[1..][i - 1];
      (if EqIC(secs[0].0, title) then [secs[0].1] else []) + rest
  }

  /** The indexer keeps encounter order: the matches of a concatenation are the matches of each part. */
  lemma {:induction false} SelectAppend(a: seq<(string, string)>, b: seq<(string, string)>, title: string)
    ensures Select(a + b, title) == Select(a, title) + Select(b, title)
  {
    if a != [] {
      assert (a + b)[0] == a[0];
      assert (a + b)[1..] == a[1..] + b;
      SelectAppend(a[1..], b, title);
    } else {
      assert a + b == b;
    }
  }

  /** `GetMerged`: the matching values joined by `Environment.NewLine`. */
  function Merged(secs: seq<(string, string)>, title: string): (r: string)
    ensures Select(secs, title) == [] ==> r == ""
    ensures |Select(secs, title)| == 1 ==> r == Select(secs, title)[0]
  {
    Join(NewLine, Select(secs, title))
  }

  /** `GetTrimmed`'s filter: non-blank values, trimmed, in order. */
  function Trimmed(xs: seq<string>): (r: seq<string>)
    ensures |r| <= |xs|
    ensures forall i :: 0 <= i < |r| ==> r[i] != "" && Trim(r[i]) == r[i]
    decreases |xs|
  {
    if xs == [] then []
    else
      var rest := Trimmed(xs[1..]);
      TrimEmptyIffBlank(xs[0]);
      TrimIdempotent(xs[0]);
      (if IsBlank(xs[0]) then [] else [Trim(xs[0])]) + rest
  }

  /** `GetTrimmed` keeps every non-blank value, trimmed... */
  lemma {:induction false} TrimmedKeeps(xs: seq<string>, x: string)
    requires x in xs && !IsBlank(x)
    ensures Trim(x) in Trimmed(xs)
    decreases |xs|
  {
    if x != xs[0] {
      assert x in xs[1..];
      TrimmedKeeps(xs[1..], x);
    }
  }

  /** ... and yields nothing else. */
  lemma {:induction false} TrimmedFrom(xs: seq<string>, y: string)
    requires y in Trimmed(xs)
    ensures exists x :: x in xs && !IsBlank(x) && y == Trim(x)
    decreases |xs|
  {
    if !IsBlank(xs[0]) && y == Trim(xs[0]) {
    } else {
      TrimmedFrom(xs[1..], y);
      var x :| x in xs[1..] && !IsBlank(x) && y == Trim(x);
      assert x in xs;
    }
  }

  /** Whether `key` equals one of `titles`, ignoring case. */
  predicate MatchesAny(key: string, titles: seq<string>)
    decreases |titles|
  {
    |titles| > 0 && (EqIC(key, titles[0]) || MatchesAny(key, titles[1..]))
  }

  /** `GetMultiple`: the values of the sections whose title is any of `titles`, in section order. */
  function SelectAny(secs: seq<(string, string)>, titles: seq<string>): (r: seq<string>)
    ensures |r| <= |secs|
    decreases |secs|
  {
    if secs == [] then []
    else
      (if MatchesAny(secs[0].0, titles) then [secs[0].1] else []) + SelectAny(secs[1..], titles)
  }

  /** With a single title, `GetMultiple` is the indexer. */
  lemma {:induction false} SelectAnyOne(secs: seq<(string, string)>, title: string)
    ensures SelectAny(secs, [title]) == Select(secs, title)
    decreases |secs|
  {
    if secs != [] {
      assert [title][1..] == [];
      assert MatchesAny(secs[0].0, [title]) == EqIC(secs[0].0, title);
      SelectAnyOne(secs[1..], title);
    }
  }

  /** Every value split at line breaks, in order. */
  function SplitAll(xs: seq<string>): (r: seq<string>)
    ensures |r| >= |xs|
    decreases |xs|
  {
    if xs == [] then [] else SplitNewlines(xs[0]) + SplitAll(xs[1..])
  }

  /** The titles whose sections list parameters, one per line. */
  const ParameterTitles: seq<string> := ["AhParameters", "AhParameter"]

  /** `GetParameters`: the lines of the matching sections, without blank lines, trimmed. */
  function GetParameters(secs: seq<(string, string)>, titles: seq<string>): (r: seq<string>)
    ensures forall i :: 0 <= i < |r| ==> r[i] != "" && Trim(r[i]) == r[i]
  {
    Trimmed(SplitAll(SelectAny(secs, titles)))
  }

  /**
   * The summary of the shell and batch parsers: the trimmed `AhDescription`
   * text, or the trimmed untitled text when that is blank.
   */
  function Summary(secs: seq<(string, string)>): (r: string)
    ensures Select(secs, "AhDescription") == [] ==> r == Trim(Merged(secs, ""))
    ensures !IsBlank(Trim(Merged(secs, "AhDescription"))) ==> r == Trim(Merged(secs, "AhDescription"))
    ensures r == Trim(r)
  {
    TrimIdempotent(Merged(secs, "AhDescription"));
    TrimIdempotent(Merged(secs, ""));
    var description := Trim(Merged(secs, "AhDescription"));
    if IsBlank(description) then Trim(Merged(secs, "")) else description
  }

  predicate NotNewline(c: char)
  {
    c != '\n'
  }

  /**
   * `^(?<1>\w+)\s*:\s*(?<2>.+)?$`, the section-title pattern of the shell and
   * batch parsers: the title and the inline value ("" when group 2 is
   * absent). `.` stops at a line feed and `$` also matches before a final one.
   */
  function MatchTitle(line: string): (r: Option<(string, string)>)
    ensures r.Some? ==> r.value.0 != [] && StartsWith(line, r.value.0)
    ensures r.Some? ==> forall i :: 0 <= i < |r.value.0| ==> IsWordChar(r.value.0[i])
  {
    var i := Skip(line, 0, IsWordChar);
    var j := Skip(line, i, IsWhite);
    if 0 < i && j < |line| && line[j] == ':' then
      var w := Skip(line, j + 1, IsWhite);
      var x := Skip(line, w, NotNewline);
      if x == |line| || (x == |line| - 1 && line[x] == '\n') then
        SliceAll(line, 0, i, IsWordChar);
        Some((line[..i], line[w..x]))
      else None
    else None
  }

  /**
   * The grammar of a title line, by positions: a word `s[..i]`, blanks, ':',
   * blanks up to `w`, the value `s[w..x]` without line feeds, and at most a
   * final line feed.
   */
  predicate TitleLineAt(s: string, i: nat, j: nat, w: nat, x: nat)
  {
    0 < i <= j < w <= x <= |s| &&
    (forall k :: 0 <= k < i ==> IsWordChar(s[k])) &&
    (forall k :: i <= k < j ==> IsWhite(s[k])) &&
    s[j] == ':' && w >= j + 1 &&
    (forall k :: j + 1 <= k < w ==> IsWhite(s[k])) &&
    (forall k :: w <= k < x ==> s[k] != '\n') &&
    ((w < x && !IsWhite(s[w])) || w == |s|) &&
    (x == |s| || (x == |s| - 1 && s[x] == '\n'))
  }

  /** Every title line of the grammar matches, with its title and inline value. */
  lemma MatchTitleAt(s: string, i: nat, j: nat, w: nat, x: nat)
    requires TitleLineAt(s, i, j, w, x)
    ensures MatchTitle(s) == Some((s[..i], s[w..x]))
  {
    assert i < |s| ==> !IsWordChar(s[i]) by {
      if i < j { assert IsWhite(s[i]); }
    }
    SkipTo(s, 0, i, IsWordChar);
    SkipTo(s, i, j, IsWhite);
    SkipTo(s, j + 1, w, IsWhite);
    SkipTo(s, w, x, NotNewline);
  }

  /** Whatever matches is a title line of the grammar. */
  lemma MatchTitleSound(s: string)
    requires MatchTitle(s).Some?
    ensures exists j: nat, w: nat, x: nat ::
      (TitleLineAt(s, |MatchTitle(s).value.0|, j, w, x) && MatchTitle(s).value.1 == s[w..x])
  {
    var i := Skip(s, 0, IsWordChar);
    var j := Skip(s, i, IsWhite);
    var w0 := Skip(s, j + 1, IsWhite);
    var x := Skip(s, w0, NotNewline);
    var w := if w0 == x then |s| else w0;
    assert TitleLineAt(s, i, j, w, x);
  }

  // ---------------------------------------------------------------------------
  // The list under construction

  class SectionList {
    var sections: seq<(string, string)>

    constructor()
      ensures sections == []
    {
      sections := [];
    }

    method Add(title: string, content: string)
      modifies this
      ensures sections == old(sections) + [(title, content)]
    {
      sections := sections + [(title, content)];
    }

    /**
     * `ReadConfigurationValues`: walks the sections once, keeping the current
     * group and the set of titles seen since it started.
     */
    method ReadConfigurationValues() returns (results: seq<ConfigValues>)
      ensures results == ConfigurationValues(sections)
    {
      results := [];
      var current := NoValues;
      var included: set<string> := {};
      for i := 0 to |sections|
        invariant Grouped(sections[..i]) == Grouping(results, current, included)
      {
        var (key, value) := sections[i];
        assert Grouped(sections[..i + 1]) == GroupStep(Grouped(sections[..i]), sections[i]) by {
          assert sections[..i + 1][..i] == sections[..i];
        }
        if UpperStr(key) in included {
          results := results + [current];
          current := NoValues;
          included := {};
        }
        included := included + {UpperStr(key)};
        current := Store(current, key, value);
      }
      assert sections[..|sections|] == sections;
      if AnySet(current) {
        results := results + [current];
      }
    }
  }

  // ---------------------------------------------------------------------------
  // ParseInternal

  /** The loop state of `ParseInternal`: the sections so far, the current title and buffer. */
  datatype Builder = Builder(sections: seq<(string, string)>, title: Option<string>, content: string)

  function Step(b: Builder, p: ParsedLine): Builder
  {
    match p.title
    case None => b.(content := b.content + p.content.GetOr("") + NewLine)
    case Some(t) =>
      Builder(b.sections + [(b.title.GetOr(""), b.content)], Some(t),
        if IsNullOrEmpty(p.content) then "" else p.content.value + NewLine)
  }

  function Collect(lines: seq<string>, parseLine: string -> ParsedLine): Builder
    decreases |lines|
  {
    if lines == [] then Builder([], None, "")
    else Step(Collect(lines[..|lines| - 1], parseLine), parseLine(lines[|lines| - 1]))
  }

  /** The section list `ParseInternal` hands to `ParseSections`. */
  function Sections(lines: seq<string>, parseLine: string -> ParsedLine): seq<(string, string)>
  {
    var b := Collect(lines, parseLine);
    if |b.content| > 0 then b.sections + [(b.title.GetOr(""), b.content)] else b.sections
  }

  method ParseInternal(lines: seq<string>, parseLine: string -> ParsedLine) returns (list: SectionList)
    ensures fresh(list)
    ensures list.sections == Sections(lines, parseLine)
  {
    list := new SectionList();
    var currentTitle: Option<string> := None;
    var currentContent := "";
    for i := 0 to |lines|
      invariant Collect(lines[..i], parseLine) == Builder(list.sections, currentTitle, currentContent)
    {
      var p := parseLine(lines[i]);
      if p.title.None? {
        currentContent := currentContent + p.content.GetOr("") + NewLine;
      } else {
        list.Add(currentTitle.GetOr(""), currentContent);
        currentTitle := p.title;
        currentContent := "";
        if !IsNullOrEmpty(p.content) {
          currentContent := currentContent + p.content.value + NewLine;
        }
      }
      assert lines[..i + 1][..i] == lines[..i];
    }
    assert lines[..|lines|] == lines;
    if |currentContent| > 0 {
      list.Add(currentTitle.GetOr(""), currentContent);
    }
  }

  /** The titles of the titled lines, in order. */
  function Titles(lines: seq<string>, parseLine: string -> ParsedLine): seq<string>
    decreases |lines|
  {
    if lines == [] then []
    else
      var t := parseLine(lines[|lines| - 1]).title;
      Titles(lines[..|lines| - 1], parseLine) + (if t.Some? then [t.value] else [])
  }

  /** An untitled line only extends the current buffer. */
  lemma UntitledLineAppends(lines: seq<string>, line: string, parseLine: string -> ParsedLine)
    requires parseLine(line).title.None?
    ensures var b := Collect(lines, parseLine);
      Collect(lines + [line], parseLine) == b.(content := b.content + parseLine(line).content.GetOr("") + NewLine)
  {
    assert (lines + [line])[..|lines|] == lines;
  }

  /**
   * A titled line flushes the buffer, even an empty one, under the previous
   * title ("" before the first title); its inline content, if any, seeds the
   * next section.
   */
  lemma TitledLineFlushes(lines: seq<string>, line: string, parseLine: string -> ParsedLine)
    requires parseLine(line).title.Some?
    ensures var b := Collect(lines, parseLine);
      var p := parseLine(line);
      Sections(lines + [line], parseLine) ==
        b.sections + [(b.title.GetOr(""), b.content)] +
        (if IsNullOrEmpty(p.content) then [] else [(p.title.value, p.content.value + NewLine)])
  {
    assert (lines + [line])[..|lines|] == lines;
  }

  lemma {:induction false} CollectTitles(lines: seq<string>, parseLine: string -> ParsedLine)
    ensures var b := Collect(lines, parseLine);
      var ts := Titles(lines, parseLine);
      |b.sections| == |ts| &&
      Keys(b.sections) == ([""] + ts)[..|ts|] &&
      b.title == (if ts == [] then None else Some(ts[|ts| - 1]))
    decreases |lines|
  {
    if lines != [] {
      var init := lines[..|lines| - 1];
      CollectTitles(init, parseLine);
      var b := Collect(init, parseLine);
      var ts := Titles(init, parseLine);
      var p := parseLine(lines[|lines| - 1]);
      if p.title.Some? {
        var ts2 := ts + [p.title.value];
        assert Titles(lines, parseLine) == ts2;
        assert Keys(b.sections + [(b.title.GetOr(""), b.content)]) == Keys(b.sections) + [b.title.GetOr("")];
        assert ([""] + ts2)[..|ts2|] == ([""] + ts)[..|ts|] + [([""] + ts)[|ts|]];
      }
    }
  }

  /**
   * Sections keep the order in which their titles appear and may repeat
   * titles: the list's titles are "" followed by the line titles, cut to the
   * number of titles, plus one when the final buffer is non-empty.
   */
  lemma SectionsTitles(lines: seq<string>, parseLine: string -> ParsedLine)
    ensures var ts := Titles(lines, parseLine);
      var ks := Keys(Sections(lines, parseLine));
      (|ks| == |ts| || |ks| == |ts| + 1) && ks == ([""] + ts)[..|ks|]
  {
    CollectTitles(lines, parseLine);
    var b := Collect(lines, parseLine);
    var ts := Titles(lines, parseLine);
    assert Keys(b.sections + [(b.title.GetOr(""), b.content)]) == Keys(b.sections) + [b.title.GetOr("")];
    assert ([""] + ts)[..|ts| + 1] == ([""] + ts)[..|ts|] + [([""] + ts)[|ts|]];
  }

  /** The content text of each line, as `AppendLine` receives it. */
  function Contents(lines: seq<string>, parseLine: string -> ParsedLine): (r: seq<string>)
    ensures |r| == |lines|
  {
    seq(|lines|, i requires 0 <= i < |lines| => parseLine(lines[i]).content.GetOr(""))
  }

  lemma {:induction false} CollectUntitled(lines: seq<string>, parseLine: string -> ParsedLine)
    requires forall i :: 0 <= i < |lines| ==> parseLine(lines[i]).title.None?
    ensures Collect(lines, parseLine) == Builder([], None, LinesText(Contents(lines, parseLine)))
    decreases |lines|
  {
    if lines != [] {
      var init := lines[..|lines| - 1];
      CollectUntitled(init, parseLine);
      assert Contents(lines, parseLine) == Contents(init, parseLine) + [parseLine(lines[|lines| - 1]).content.GetOr("")];
      LinesTextAppend(Contents(init, parseLine), parseLine(lines[|lines| - 1]).content.GetOr(""));
    }
  }

  /** A header without titles is one untitled section holding every line, each followed by a newline. */
  lemma UntitledHeader(lines: seq<string>, parseLine: string -> ParsedLine)
    requires forall i :: 0 <= i < |lines| ==> parseLine(lines[i]).title.None?
    ensures Sections(lines, parseLine) ==
      if lines == [] then [] else [("", LinesText(Contents(lines, parseLine)))]
  {
    CollectUntitled(lines, parseLine);
    if lines != [] {
      var cs := Contents(lines, parseLine);
      assert cs == cs[..|cs| - 1] + [cs[|cs| - 1]];
      LinesTextAppend(cs[..|cs| - 1], cs[|cs| - 1]);
    }
  }

  // ---------------------------------------------------------------------------
  // ReadConfigurationValues

  /** `ScriptConfigurationValues`: the five directives of one configuration group. */
  datatype ConfigValues = ConfigValues(
    configType: Option<string>,
    configKey: Option<string>,
    desiredValue: Option<string>,
    currentValue: Option<string>,
    valueDrifted: Option<string>)

  const NoValues: ConfigValues := ConfigValues(None, None, None, None, None)

  predicate AnySet(c: ConfigValues)
  {
    c.configKey.Some? || c.configType.Some? || c.currentValue.Some? || c.desiredValue.Some? || c.valueDrifted.Some?
  }

  /** The five directive titles, upper-cased: a title names one when it equals it ignoring case. */
  predicate IsConfigTitle(t: string)
  {
    UpperStr(t) in {"AHCONFIGTYPE", "AHCONFIGKEY", "AHDESIREDVALUE", "AHCURRENTVALUE", "AHVALUEDRIFTED"}
  }

  /** The directive a section's title names receives its trimmed value; other titles change nothing. */
  function Store(c: ConfigValues, title: string, value: string): ConfigValues
  {
    match UpperStr(title)
    case "AHCONFIGTYPE" => c.(configType := Some(Trim(value)))
    case "AHCONFIGKEY" => c.(configKey := Some(Trim(value)))
    case "AHDESIREDVALUE" => c.(desiredValue := Some(Trim(value)))
    case "AHCURRENTVALUE" => c.(currentValue := Some(Trim(value)))
    case "AHVALUEDRIFTED" => c.(valueDrifted := Some(Trim(value)))
    case _ => c
  }

  /** The loop state: finished groups, the current group, and the titles it has seen (upper-cased). */
  datatype Grouping = Grouping(results: seq<ConfigValues>, current: ConfigValues, included: set<string>)

  function GroupStep(g: Grouping, sec: (string, string)): Grouping
  {
    var k := UpperStr(sec.0);
    var h := if k in g.included then Grouping(g.results + [g.current], NoValues, {k})
      else g.(included := g.included + {k});
    h.(current := Store(h.current, sec.0, sec.1))
  }

  function Grouped(secs: seq<(string, string)>): Grouping
    decreases |secs|
  {
    if secs == [] then Grouping([], NoValues, {})
    else GroupStep(Grouped(secs[..|secs| - 1]), secs[|secs| - 1])
  }

  function ConfigurationValues(secs: seq<(string, string)>): seq<ConfigValues>
  {
    var g := Grouped(secs);
    if AnySet(g.current) then g.results + [g.current] else g.results
  }

  predicate IsTrimmedOpt(x: Option<string>)
  {
    x.None? || Trim(x.value) == x.value
  }

  predicate AllTrimmed(c: ConfigValues)
  {
    IsTrimmedOpt(c.configType) && IsTrimmedOpt(c.configKey) && IsTrimmedOpt(c.desiredValue) &&
    IsTrimmedOpt(c.currentValue) && IsTrimmedOpt(c.valueDrifted)
  }

  lemma {:induction false} GroupedTrimmed(secs: seq<(string, string)>)
    ensures forall c :: c in Grouped(secs).results ==> AllTrimmed(c)
    ensures AllTrimmed(Grouped(secs).current)
    decreases |secs|
  {
    if secs != [] {
      var g := Grouped(secs[..|secs| - 1]);
      GroupedTrimmed(secs[..|secs| - 1]);
      var sec := secs[|secs| - 1];
      var h := if UpperStr(sec.0) in g.included then Grouping(g.results + [g.current], NoValues, {UpperStr(sec.0)})
        else g.(included := g.included + {UpperStr(sec.0)});
      assert Grouped(secs) == h.(current := Store(h.current, sec.0, sec.1));
      assert AllTrimmed(h.current);
      StoreTrimmed(h.current, sec.0, sec.1);
    }
  }

  lemma StoreTrimmed(c: ConfigValues, title: string, value: string)
    requires AllTrimmed(c)
    ensures AllTrimmed(Store(c, title, value))
  {
    var t := Trim(value);
    assert IsTrimmedOpt(Some(t)) by { TrimIdempotent(value); }
    var d := Store(c, title, value);
    assert d == c || d == c.(configType := Some(t)) || d == c.(configKey := Some(t)) ||
      d == c.(desiredValue := Some(t)) || d == c.(currentValue := Some(t)) || d == c.(valueDrifted := Some(t));
  }

  /** Every stored directive is trimmed. */
  lemma ConfigurationValuesTrimmed(secs: seq<(string, string)>)
    ensures forall c :: c in ConfigurationValues(secs) ==> AllTrimmed(c)
  {
    GroupedTrimmed(secs);
  }

  lemma {:induction false} GroupedIgnoresOthers(secs: seq<(string, string)>)
    requires forall i :: 0 <= i < |secs| ==> !IsConfigTitle(secs[i].0)
    ensures forall c :: c in Grouped(secs).results ==> c == NoValues
    ensures Grouped(secs).current == NoValues
    decreases |secs|
  {
    if secs != [] {
      GroupedIgnoresOthers(secs[..|secs| - 1]);
    }
  }

  /**
   * Titles other than the five directives are ignored: without directives
   * every group is empty, and no trailing group is added.
   */
  lemma IgnoresOtherTitles(secs: seq<(string, string)>)
    requires forall i :: 0 <= i < |secs| ==> !IsConfigTitle(secs[i].0)
    ensures forall c :: c in ConfigurationValues(secs) ==> c == NoValues
    ensures ConfigurationValues(secs) == Grouped(secs).results
  {
    GroupedIgnoresOthers(secs);
  }

  /** The title just read is among the titles of the current group. */
  lemma LastTitleIncluded(secs: seq<(string, string)>)
    requires secs != []
    ensures UpperStr(secs[|secs| - 1].0) in Grouped(secs).included
  {
  }

  /**
   * A title repeated (ignoring case) right after itself closes the current
   * group and starts a new one, whatever the title is.
   */
  lemma RepeatedTitleFlushes(secs: seq<(string, string)>, a: (string, string), b: (string, string))
    requires EqIC(a.0, b.0)
    ensures var g := Grouped(secs + [a]);
      Grouped(secs + [a, b]) == Grouping(g.results + [g.current], Store(NoValues, b.0, b.1), {UpperStr(b.0)})
  {
    var s := secs + [a, b];
    var t := secs + [a];
    assert s[..|s| - 1] == t && s[|s| - 1] == b;
    assert Grouped(s) == GroupStep(Grouped(t), b);
    LastTitleIncluded(t);
    assert t[|t| - 1] == a;
  }

  lemma {:induction false} GroupedDistinct(secs: seq<(string, string)>)
    requires forall i, j :: 0 <= i < j < |secs| ==> !EqIC(secs[i].0, secs[j].0)
    ensures Grouped(secs).results == []
    ensures forall k :: k in Grouped(secs).included ==> exists i :: 0 <= i < |secs| && k == UpperStr(secs[i].0)
    decreases |secs|
  {
    if secs != [] {
      var n := |secs| - 1;
      var init := secs[..n];
      assert forall i, j :: 0 <= i < j < |init| ==> !EqIC(init[i].0, init[j].0) by {
        assert forall i :: 0 <= i < n ==> init[i] == secs[i];
      }
      GroupedDistinct(init);
      var g := Grouped(init);
      var k := UpperStr(secs[n].0);
      forall i | 0 <= i < n
        ensures k != UpperStr(init[i].0)
      {
        assert init[i] == secs[i];
        assert !EqIC(secs[i].0, secs[n].0);
      }
      assert k !in g.included;
      assert Grouped(secs) == GroupStep(g, secs[n]);
      forall x | x in Grouped(secs).included
        ensures exists i :: 0 <= i < |secs| && x == UpperStr(secs[i].0)
      {
        if x != k {
          var i :| 0 <= i < n && x == UpperStr(init[i].0);
          assert init[i] == secs[i];
        }
      }
    }
  }

  /** With pairwise distinct titles there is at most one group. */
  lemma DistinctTitlesOneGroup(secs: seq<(string, string)>)
    requires forall i, j :: 0 <= i < j < |secs| ==> !EqIC(secs[i].0, secs[j].0)
    ensures |ConfigurationValues(secs)| <= 1
  {
    GroupedDistinct(secs);
  }

  /** A repeated plain comment title yields an empty group: the flush does not look at the fields. */
  lemma EmptyGroupFromRepeatedTitle()
    ensures ConfigurationValues([("Note", "a"), ("NOTE", "b")]) == [NoValues]
  {
    var secs := [("Note", "a"), ("NOTE", "b")];
    var u := UpperStr("Note");
    assert u[0] == 'N' && u[1] == 'O' && u[2] == 'T' && u[3] == 'E';
    assert u == "NOTE";
    var v := UpperStr("NOTE");
    assert v[0] == 'N' && v[1] == 'O' && v[2] == 'T' && v[3] == 'E';
    assert v == "NOTE";
    assert secs[..1] == [("Note", "a")];
    assert secs[..1][..0] == [];
    var g1 := Grouping([], NoValues, {"NOTE"});
    assert Grouped(secs[..1]) == g1;
    assert Grouped(secs) == GroupStep(g1, ("NOTE", "b"));
  }

  // ---------------------------------------------------------------------------
  // The records ParseSections fills, and its shared pieces

  /** `ScriptParameterUsage`; a combination of flags is `OtherUsage`. */
  datatype Usage = Default | Arguments | EnvironmentVariable | InputVariable | OutputVariable | OtherUsage

  /** The fields of `ScriptParameterInfo` the extension reads. */
  datatype ParamInfo = ParamInfo(name: string, usage: Usage, defaultValue: Option<string>)

  datatype ScriptInfo = ScriptInfo(
    parameters: seq<ParamInfo>,
    summary: string,
    warnings: seq<string>,
    argsFormat: string,
    configValues: seq<ConfigValues>,
    execMode: string)

  const ParameterWarning: string := "AhParameter format error: "
  const FormatWarning: string := "AhArgsFormat error: "

  /**
   * The `ScriptParameterInfo.Parse` loop: each trimmed text is parsed by
   * `parse` (the SDK parser, an input here); a `FormatException` becomes a
   * warning carrying its message.
   */
  function ParseParameters(texts: seq<string>, parse: string -> Result<ParamInfo>): (r: (seq<ParamInfo>, seq<string>))
    ensures |r.0| + |r.1| == |texts|
    ensures forall w :: w in r.1 ==> StartsWith(w, ParameterWarning)
    decreases |texts|
  {
    if texts == [] then ([], [])
    else
      var (ps, ws) := ParseParameters(texts[..|texts| - 1], parse);
      match parse(Trim(texts[|texts| - 1]))
      case Ok(p) => (ps + [p], ws)
      case Err(m) =>
        assert (ParameterWarning + m)[..|ParameterWarning|] == ParameterWarning;
        (ps, ws + [ParameterWarning + m])
  }

  /** When every text parses, the parameters are the parsed texts in order and there is no warning. */
  lemma {:induction false} ParseParametersAllValid(texts: seq<string>, parse: string -> Result<ParamInfo>)
    requires forall i :: 0 <= i < |texts| ==> parse(Trim(texts[i])).Ok?
    ensures ParseParameters(texts, parse).1 == []
    ensures |ParseParameters(texts, parse).0| == |texts|
    ensures forall i :: 0 <= i < |texts| ==> ParseParameters(texts, parse).0[i] == parse(Trim(texts[i])).value
    decreases |texts|
  {
    if texts != [] {
      var init := texts[..|texts| - 1];
      var last := texts[|texts| - 1];
      assert forall i :: 0 <= i < |init| ==> init[i] == texts[i];
      ParseParametersAllValid(init, parse);
      ParseParametersLast(texts, parse);
      var ps := ParseParameters(init, parse).0 + [parse(Trim(last)).value];
      assert ParseParameters(texts, parse) == (ps, []);
      forall i | 0 <= i < |texts|
        ensures ps[i] == parse(Trim(texts[i])).value
      {
        if i < |init| {
          assert ps[i] == ParseParameters(init, parse).0[i];
        }
      }
    }
  }

  lemma ParseParametersLast(texts: seq<string>, parse: string -> Result<ParamInfo>)
    requires texts != [] && parse(Trim(texts[|texts| - 1])).Ok?
    ensures var r := ParseParameters(texts[..|texts| - 1], parse);
      ParseParameters(texts, parse) == (r.0 + [parse(Trim(texts[|texts| - 1])).value], r.1)
  {
  }

  /** `ProcessedString.Parse` as a validator (an input here): a message when it throws. */
  function FormatWarnings(text: string, validate: string -> Option<string>): (r: seq<string>)
    ensures |r| <= 1
    ensures r == [] <==> validate(text).None?
    ensures forall w :: w in r ==> StartsWith(w, FormatWarning)
  {
    match validate(text)
    case None => []
    case Some(m) =>
      assert (FormatWarning + m)[..|FormatWarning|] == FormatWarning;
      [FormatWarning + m]
  }

  /** The parameters whose usage is `Arguments`, in order. */
  function ArgumentParams(ps: seq<ParamInfo>): (r: seq<ParamInfo>)
    ensures |r| <= |ps|
    ensures forall p :: p in r <==> p in ps && p.usage == Arguments
    decreases |ps|
  {
    if ps == [] then []
    else
      var rest := ArgumentParams(ps[1..]);
      assert forall p :: p in ps <==> p == ps[0] || p in ps[1..];
      (if ps[0].usage == Arguments then [ps[0]] else []) + rest
  }

  /** The synthesised arguments format: "$Name" of each parameter, joined by spaces. */
  function FormatOf(ps: seq<ParamInfo>): string
  {
    Join(" ", seq(|ps|, i requires 0 <= i < |ps| => "$" + ps[i].name))
  }
}
