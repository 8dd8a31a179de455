/**
 * `LegacyPowerShellVersion`: a NuGet-style version of one to four 32-bit
 * numeric parts, an optional prerelease that starts with a letter and
 * optional `+metadata` that is accepted and thrown away. Absent parts are
 * stored as -1.
 */
module LegacyVersion {
  import opened Common

  datatype Legacy = Legacy(
    major: nat, minor: int, patch: int, build: int,
    prerelease: Option<string>,
    /** The text the version was parsed from, if any. */
    original: Option<string>)

  // ---------------------------------------------------------------------------
  // Text grammar: ^[0-9]+(\.[0-9]+){0,3}(-[a-zA-Z][0-9a-zA-Z-]*)?(\+[a-zA-Z0-9\-\.]*)?$

  predicate IsPreChar(c: char)
  {
    IsDigit(c) || IsAsciiLetter(c) || c == '-'
  }

  predicate IsMetaChar(c: char)
  {
    IsAsciiLetter(c) || IsDigit(c) || c == '-' || c == '.'
  }

  predicate IsNumber(s: string)
  {
    s != [] && AllDigits(s)
  }

  /** `[a-zA-Z][0-9a-zA-Z-]*`. */
  predicate IsPrereleaseText(s: string)
  {
    s != [] && IsAsciiLetter(s[0]) && forall i :: 0 <= i < |s| ==> IsPreChar(s[i])
  }

  /** The pieces of a match; an absent prerelease is "", absent metadata `None`. */
  datatype Groups = Groups(numbers: seq<string>, prerelease: string, metadata: Option<string>)

  predicate WellFormed(g: Groups)
  {
    1 <= |g.numbers| <= 4 && (forall i :: 0 <= i < |g.numbers| ==> IsNumber(g.numbers[i])) &&
    (g.prerelease == "" || IsPrereleaseText(g.prerelease)) &&
    (g.metadata.Some? ==> forall i :: 0 <= i < |g.metadata.value| ==> IsMetaChar(g.metadata.value[i]))
  }

  function SuffixText(prerelease: string, metadata: Option<string>): string
  {
    (if prerelease == "" then "" else "-" + prerelease) + (if metadata.Some? then "+" + metadata.value else "")
  }

  function Render(g: Groups): string
  {
    Join(".", g.numbers) + SuffixText(g.prerelease, g.metadata)
  }

  /** Up to `more` + 1 dot-separated numbers at the start of `t`, and the rest. */
  function NumberList(t: string, more: nat): (r: Option<(seq<string>, string)>)
    ensures r.Some? ==> 1 <= |r.value.0| <= more + 1
    ensures r.Some? ==> forall i :: 0 <= i < |r.value.0| ==> IsNumber(r.value.0[i])
    ensures r.Some? ==> t == Join(".", r.value.0) + r.value.1
    ensures r.Some? ==> r.value.1 == [] || (r.value.1[0] != '.' && !IsDigit(r.value.1[0]))
    decreases |t|
  {
    var i := Skip(t, 0, IsDigit);
    if i == 0 then None
    else
      var d, after := t[..i], t[i..];
      LeadingNumber(t, i);
      if after != [] && after[0] == '.' then
        if more == 0 then None
        else
          match NumberList(after[1..], more - 1)
          case None => None
          case Some((ns, rest)) =>
            JoinCons(d, ns, after[1..], rest);
            Some(([d] + ns, rest))
      else
        Some(([d], after))
  }

  /** The digits `Skip` found at the start of `t` form a number, and what follows starts with no digit. */
  lemma LeadingNumber(t: string, i: nat)
    requires 0 < i <= |t| && i == Skip(t, 0, IsDigit)
    ensures IsNumber(t[..i]) && t == t[..i] + t[i..]
    ensures t[i..] == [] || !IsDigit(t[i..][0])
  {
    SliceAll(t, 0, i, IsDigit);
    assert t == t[..i] + t[i..];
    if i < |t| {
      assert t[i..][0] == t[i];
    }
  }

  /** A number joined with the dot-separated numbers after its dot. */
  lemma JoinCons(d: string, ns: seq<string>, tail: string, rest: string)
    requires ns != [] && tail == Join(".", ns) + rest
    ensures d + "." + tail == Join(".", [d] + ns) + rest
  {
    assert ([d] + ns)[1..] == ns;
  }

  /** `(\+[a-zA-Z0-9\-\.]*)?` reaching the end of the text. */
  function MetaPart(w: string): (r: Option<Option<string>>)
    ensures r.Some? ==> w == (if r.value.Some? then "+" + r.value.value else "")
    ensures r.Some? && r.value.Some? ==> forall i :: 0 <= i < |r.value.value| ==> IsMetaChar(r.value.value[i])
  {
    if w == [] then Some(None)
    else if w[0] != '+' then None
    else
      var n := Skip(w, 1, IsMetaChar);
      if n != |w| then None
      else
        SliceAll(w, 1, n, IsMetaChar);
        assert w == "+" + w[1..];
        Some(Some(w[1..]))
  }

  /** The optional prerelease and metadata, reaching the end of the text. */
  function MatchSuffix(u: string): (r: Option<(string, Option<string>)>)
    ensures r.Some? ==> u == SuffixText(r.value.0, r.value.1)
    ensures r.Some? ==> r.value.0 == "" || IsPrereleaseText(r.value.0)
    ensures r.Some? && r.value.1.Some? ==> forall i :: 0 <= i < |r.value.1.value| ==> IsMetaChar(r.value.1.value[i])
  {
    if u != [] && u[0] == '-' then
      if |u| < 2 || !IsAsciiLetter(u[1]) then None
      else
        var m := Skip(u, 2, IsPreChar);
        match MetaPart(u[m..])
        case None => None
        case Some(meta) =>
          SliceAll(u, 1, m, IsPreChar);
          assert u == "-" + u[1..m] + u[m..];
          Some((u[1..m], meta))
    else
      match MetaPart(u)
      case None => None
      case Some(meta) => Some(("", meta))
  }

  function MatchText(t: string): (r: Option<Groups>)
    ensures r.Some? ==> WellFormed(r.value) && Render(r.value) == t
  {
    match NumberList(t, 3)
    case None => None
    case Some((ns, rest)) =>
      match MatchSuffix(rest)
      case None => None
      case Some((pre, meta)) => Some(Groups(ns, pre, meta))
  }

  /** `Regex.Match`: `$` also matches just before a final newline. */
  function Match(s: string): (r: Option<Groups>)
    ensures r.Some? ==> WellFormed(r.value) && (s == Render(r.value) || s == Render(r.value) + "\n")
  {
    if EndsWith(s, "\n") then
      var r := MatchText(s[..|s| - 1]);
      assert r.Some? ==> s == s[..|s| - 1] + "\n";
      r
    else MatchText(s)
  }

  /** Part `i` as `int.Parse` reads it, -1 when the text has fewer parts. */
  function PartValue(ns: seq<string>, i: nat): (r: int)
    requires forall j :: 0 <= j < |ns| ==> IsNumber(ns[j])
    ensures i >= |ns| <==> r == -1
  {
    if i < |ns| then assert IsNumber(ns[i]); DigitsValue(ns[i]) else -1
  }

  predicate FitsInt32(ns: seq<string>)
    requires forall j :: 0 <= j < |ns| ==> IsNumber(ns[j])
  {
    forall j :: 0 <= j < |ns| ==> assert IsNumber(ns[j]); DigitsValue(ns[j]) <= Int32Max
  }

  /**
   * `TryParse`: `Ok(None)` for blank text and text outside the grammar, `Err`
   * for the `OverflowException` of a part above `int.MaxValue`. The
   * prerelease is the group's value, "" when absent.
   */
  function TryParse(s: Option<string>): (r: Result<Option<Legacy>>)
    ensures IsNullOrWhiteSpace(s) ==> r == Ok(None)
    ensures !IsNullOrWhiteSpace(s) && Match(s.value).None? ==> r == Ok(None)
    ensures r.Ok? && r.value.Some? ==> r.value.value.original == s && r.value.value.prerelease.Some?
  {
    if IsNullOrWhiteSpace(s) then Ok(None)
    else
      match Match(s.value)
      case None => Ok(None)
      case Some(g) =>
        if !FitsInt32(g.numbers) then Err("OverflowException")
        else
          var ns := g.numbers;
          Ok(Some(Legacy(DigitsValue(ns[0]), PartValue(ns, 1), PartValue(ns, 2), PartValue(ns, 3), Some(g.prerelease), s)))
  }

  // ---------------------------------------------------------------------------
  // Accessors

  /** `MyMinor`, `MyPatch`, `MyBuild`: a stored -1 reads as null. */
  function Present(x: int): (r: Option<int>)
    ensures r.None? <==> x < 0
    ensures r.Some? ==> r.value == x
  {
    if x >= 0 then Some(x) else None
  }

  // ---------------------------------------------------------------------------
  // Equality and ordering

  /** Builds that are equal or both at most zero count as the same. */
  predicate SameBuild(a: int, b: int)
  {
    a == b || (a <= 0 && b <= 0)
  }

  /** `Equals`: prerelease ignoring case, where null equals only null. */
  predicate Equal(a: Legacy, b: Legacy)
  {
    a.major == b.major && a.minor == b.minor && a.patch == b.patch &&
    SameBuild(a.build, b.build) && EqICOpt(a.prerelease, b.prerelease)
  }

  /** `Compare` reduced to its sign. */
  function Compare(a: Legacy, b: Legacy): (r: int)
    ensures r in {-1, 0, 1}
  {
    if a.major != b.major then CompareInt(a.major, b.major)
    else if a.minor != b.minor then CompareInt(a.minor, b.minor)
    else if a.patch != b.patch then CompareInt(a.patch, b.patch)
    else if !SameBuild(a.build, b.build) then CompareInt(a.build, b.build)
    else if !IsNullOrEmpty(a.prerelease) && !IsNullOrEmpty(b.prerelease) then CompareIC(a.prerelease.value, b.prerelease.value)
    else if IsNullOrEmpty(a.prerelease) && !IsNullOrEmpty(b.prerelease) then 1
    else if !IsNullOrEmpty(a.prerelease) && IsNullOrEmpty(b.prerelease) then -1
    else 0
  }

  // ---------------------------------------------------------------------------
  // Formatting

  /** The numeric parts as `ToString(normalized)` writes them. */
  function NumbersText(v: Legacy, normalized: bool): string
  {
    var buildText := if v.build < 0 || (normalized && v.build == 0) then "" else "." + NatToString(v.build);
    var patchText := if v.patch < 0 then "" else "." + NatToString(v.patch) + buildText;
    var minorText := if v.minor < 0 then "" else "." + NatToString(v.minor) + patchText;
    NatToString(v.major) + minorText
  }

  function PrereleaseText(v: Legacy): string
  {
    if IsNullOrEmpty(v.prerelease) then "" else "-" + v.prerelease.value
  }

  /** `ToString(normalized)`: plain `ToString` when false, `ToNormalizedString` when true. */
  function ToString(v: Legacy, normalized: bool): string
  {
    NumbersText(v, normalized) + PrereleaseText(v)
  }

  /** The buffer appends of `ToString(normalized)`, part by part. */
  method WriteText(v: Legacy, normalized: bool) returns (buffer: string)
    ensures buffer == ToString(v, normalized)
  {
    buffer := NatToString(v.major);
    if v.minor >= 0 {
      buffer := buffer + "." + NatToString(v.minor);
      if v.patch >= 0 {
        buffer := buffer + "." + NatToString(v.patch);
        if v.build >= 0 {
          if !normalized || v.build > 0 {
            buffer := buffer + "." + NatToString(v.build);
          }
        }
      }
      assert buffer == NumbersText(v, normalized);
    }
    assert buffer == NumbersText(v, normalized);
    if !IsNullOrEmpty(v.prerelease) {
      buffer := buffer + "-" + v.prerelease.value;
    }
  }

  /** `OriginalString`: the parsed text, or the plain `ToString` when there is none. */
  function OriginalString(v: Legacy): (r: string)
    ensures v.original.Some? ==> r == v.original.value
  {
    if v.original.Some? then v.original.value else ToString(v, false)
  }

  /** `OriginalUniquePart`: the original text up to its first '+'. */
  function OriginalUniquePart(v: Legacy): (r: string)
    ensures '+' !in r
    ensures r == OriginalString(v) || r + "+" <= OriginalString(v)
  {
    var o := OriginalString(v);
    var k := IndexOfChar(o, '+');
    if k == -1 then o
    else
      assert o[..k] + "+" == o[..k + 1];
      o[..k]
  }

  /**
   * `GetAlias`: with no build, the text with a zero build; with a zero build,
   * the normalised text; otherwise null.
   */
  function GetAlias(v: Legacy): (r: Option<string>)
    ensures v.build < 0 ==> r == Some(ToString(v.(build := 0), false))
    ensures v.build == 0 ==> r == Some(ToString(v, true))
    ensures v.build > 0 ==> r == None
  {
    if v.build < 0 then Some(ToString(v.(build := 0), false))
    else if v.build == 0 then Some(ToString(v, true))
    else None
  }

  /** `ToNormalizedVersion`: a zero build becomes absent; the original text is kept. */
  function ToNormalizedVersion(v: Legacy): (r: Legacy)
    ensures v.build != 0 ==> r == v
    ensures v.build == 0 ==> r.build == -1 && r.original == Some(OriginalString(v))
    ensures r.major == v.major && r.minor == v.minor && r.patch == v.patch && r.prerelease == v.prerelease
  {
    if v.build == 0 then v.(build := -1, original := Some(OriginalString(v))) else v
  }

  /** `ValidatePrereleaseString`: blank is null, text outside `^[a-zA-Z][0-9a-zA-Z-]*$` throws. */
  function ValidatePrerelease(s: Option<string>): (r: Result<Option<string>>)
    ensures IsNullOrWhiteSpace(s) ==> r == Ok(None)
    ensures !IsNullOrWhiteSpace(s) ==>
      (r.Ok? <==> IsPrereleaseText(s.value) || (EndsWith(s.value, "\n") && IsPrereleaseText(s.value[..|s.value| - 1])))
    ensures r.Ok? && r.value.Some? ==> r.value == s
  {
    if IsNullOrWhiteSpace(s) then Ok(None)
    else
      var t := s.value;
      if IsPrereleaseText(t) || (EndsWith(t, "\n") && IsPrereleaseText(t[..|t| - 1])) then Ok(s)
      else Err("ArgumentException")
  }

  // ---------------------------------------------------------------------------
  // Properties

  lemma NumberListLast(d: string, rest: string, more: nat)
    requires IsNumber(d)
    requires rest == [] || (rest[0] != '.' && !IsDigit(rest[0]))
    ensures NumberList(d + rest, more) == Some(([d], rest))
  {
    var t := d + rest;
    SkipOver(d, rest, 0, IsDigit);
    assert t[..|d|] == d && t[|d|..] == rest;
    assert |d| < |t| ==> t[|d|] == rest[0];
  }

  lemma NumberListStep(d: string, tail: string, more: nat, ns: seq<string>, rest: string)
    requires IsNumber(d) && more > 0
    requires NumberList(tail, more - 1) == Some((ns, rest))
    ensures NumberList(d + ("." + tail), more) == Some(([d] + ns, rest))
  {
    var t := d + ("." + tail);
    SkipOver(d, "." + tail, 0, IsDigit);
    assert t[..|d|] == d && t[|d| + 1..] == tail;
    assert t[|d|] == '.';
  }

  lemma {:induction false} NumberListOf(ns: seq<string>, rest: string, more: nat)
    requires 1 <= |ns| <= more + 1
    requires forall i :: 0 <= i < |ns| ==> IsNumber(ns[i])
    requires rest == [] || (rest[0] != '.' && !IsDigit(rest[0]))
    ensures NumberList(Join(".", ns) + rest, more) == Some((ns, rest))
    decreases |ns|
  {
    if |ns| == 1 {
      assert Join(".", ns) == ns[0];
      NumberListLast(ns[0], rest, more);
      assert [ns[0]] == ns;
    } else {
      var tail := Join(".", ns[1..]) + rest;
      assert [ns[0]] + ns[1..] == ns;
      JoinCons(ns[0], ns[1..], tail, rest);
      assert ns[0] + "." + tail == ns[0] + ("." + tail);
      NumberListOf(ns[1..], rest, more - 1);
      NumberListStep(ns[0], tail, more, ns[1..], rest);
    }
  }

  lemma MetaPartOf(meta: Option<string>)
    requires meta.Some? ==> forall i :: 0 <= i < |meta.value| ==> IsMetaChar(meta.value[i])
    ensures MetaPart(if meta.Some? then "+" + meta.value else "") == Some(meta)
  {
    if meta.Some? {
      var w := "+" + meta.value;
      assert forall j :: 1 <= j < |w| ==> w[j] == meta.value[j - 1];
      assert w + "" == w;
      SkipOver(w, "", 1, IsMetaChar);
      assert w[1..] == meta.value;
    }
  }

  lemma MatchSuffixOf(pre: string, meta: Option<string>)
    requires pre == "" || IsPrereleaseText(pre)
    requires meta.Some? ==> forall i :: 0 <= i < |meta.value| ==> IsMetaChar(meta.value[i])
    ensures MatchSuffix(SuffixText(pre, meta)) == Some((pre, meta))
  {
    var mt := if meta.Some? then "+" + meta.value else "";
    MetaPartOf(meta);
    if pre != "" {
      var x := "-" + pre;
      var u := x + mt;
      assert u == SuffixText(pre, meta);
      assert forall j :: 2 <= j < |x| ==> x[j] == pre[j - 1];
      SkipOver(x, mt, 2, IsPreChar);
      assert u[1..|x|] == pre && u[|x|..] == mt;
    } else {
      assert SuffixText(pre, meta) == mt;
    }
  }

  lemma SuffixStart(pre: string, meta: Option<string>)
    ensures var u := SuffixText(pre, meta); u == [] || u[0] == '-' || u[0] == '+'
  {
  }

  /** Every well-formed text matches, and the match recovers its groups. */
  lemma MatchTextOf(g: Groups)
    requires WellFormed(g)
    ensures MatchText(Render(g)) == Some(g)
  {
    SuffixStart(g.prerelease, g.metadata);
    NumberListOf(g.numbers, SuffixText(g.prerelease, g.metadata), 3);
    MatchSuffixOf(g.prerelease, g.metadata);
  }

  lemma NoNewlineIn(s: string, f: char -> bool)
    requires forall i :: 0 <= i < |s| ==> f(s[i])
    requires !f('\n')
    ensures '\n' !in s
  {
  }

  lemma {:induction false} JoinNoNewline(ns: seq<string>)
    requires forall i :: 0 <= i < |ns| ==> IsNumber(ns[i])
    ensures '\n' !in Join(".", ns)
    decreases |ns|
  {
    if |ns| > 0 {
      NoNewlineIn(ns[0], IsDigit);
    }
    if |ns| > 1 {
      JoinNoNewline(ns[1..]);
    }
  }

  lemma NoNewline(g: Groups)
    requires WellFormed(g)
    ensures !EndsWith(Render(g), "\n")
  {
    JoinNoNewline(g.numbers);
    if g.prerelease != "" {
      NoNewlineIn(g.prerelease, IsPreChar);
    }
    if g.metadata.Some? {
      NoNewlineIn(g.metadata.value, IsMetaChar);
    }
    var s := Render(g);
    assert '\n' !in s;
    assert s[|s| - 1] in s;
  }

  /** The grammar, both ways: well-formed text matches, with or without one final newline. */
  lemma MatchOf(g: Groups)
    requires WellFormed(g)
    ensures Match(Render(g)) == Some(g)
    ensures Match(Render(g) + "\n") == Some(g)
  {
    MatchTextOf(g);
    NoNewline(g);
    var s := Render(g) + "\n";
    assert s[..|s| - 1] == Render(g);
  }

  /** Five numeric parts are too many. */
  lemma FiveParts()
    ensures TryParse(Some("1.2.3.4.5")) == Ok(None)
  {
    var t := "1.2.3.4.5";
    FivePartsNoNumbers();
    assert t[|t| - 1] == '5';
    assert Match(t) == None;
    assert !IsBlank(t) by { assert !IsWhite(t[0]); }
  }

  /** The dot-separated numbers of "1.2.3.4.5" run past the fourth. */
  lemma FivePartsNoNumbers()
    ensures NumberList("1.2.3.4.5", 3) == None
  {
    var t := "1.2.3.4.5";
    SkipTo(t, 0, 1, IsDigit);
    assert t[2..] == "2.3.4.5";
    SkipTo("2.3.4.5", 0, 1, IsDigit);
    assert "2.3.4.5"[2..] == "3.4.5";
    SkipTo("3.4.5", 0, 1, IsDigit);
    assert "3.4.5"[2..] == "4.5";
    SkipTo("4.5", 0, 1, IsDigit);
    assert NumberList("4.5", 0) == None;
    assert NumberList("3.4.5", 1) == None;
    assert NumberList("2.3.4.5", 2) == None;
  }

  /** Absent parts are stored as -1 and read back as null. */
  lemma AbsentParts(s: string)
    requires TryParse(Some(s)).Ok? && TryParse(Some(s)).value.Some?
    ensures var v := TryParse(Some(s)).value.value;
      var n := |Match(s).value.numbers|;
      (Present(v.minor).None? <==> n < 2) && (Present(v.patch).None? <==> n < 3) && (Present(v.build).None? <==> n < 4)
  {
  }

  /** Builds at most zero do not tell versions apart. */
  lemma EqualIgnoresNonPositiveBuild(a: Legacy, b: Legacy, x: int, y: int)
    requires a.build <= 0 && b.build <= 0 && x <= 0 && y <= 0
    ensures Equal(a, b) == Equal(a.(build := x), b.(build := y))
    ensures Compare(a, b) == Compare(a.(build := x), b.(build := y))
  {
  }

  lemma CompareAntisymmetric(a: Legacy, b: Legacy)
    ensures Compare(a, b) == -Compare(b, a)
  {
    if !IsNullOrEmpty(a.prerelease) && !IsNullOrEmpty(b.prerelease) {
      CompareICAntisymmetric(a.prerelease.value, b.prerelease.value);
    }
  }

  /** Major, minor, patch and build decide in that order, then a release is above a prerelease. */
  lemma CompareLexicographic(a: Legacy, b: Legacy)
    ensures a.major < b.major ==> Compare(a, b) == -1
    ensures a.major == b.major && a.minor < b.minor ==> Compare(a, b) == -1
    ensures a.major == b.major && a.minor == b.minor && a.patch < b.patch ==> Compare(a, b) == -1
    ensures a.major == b.major && a.minor == b.minor && a.patch == b.patch && !SameBuild(a.build, b.build) && a.build < b.build ==> Compare(a, b) == -1
    ensures (a.major == b.major && a.minor == b.minor && a.patch == b.patch && SameBuild(a.build, b.build) &&
      IsNullOrEmpty(a.prerelease) && !IsNullOrEmpty(b.prerelease)) ==> Compare(a, b) == 1
  {
  }

  /** Equal versions compare as 0. */
  lemma EqualCompareZero(a: Legacy, b: Legacy)
    requires Equal(a, b)
    ensures Compare(a, b) == 0
  {
  }

  /** The converse fails: an absent and an empty prerelease compare as 0 but are not equal. */
  lemma CompareZeroNotEqual()
    ensures var a := Legacy(1, 0, -1, -1, None, None);
      var b := Legacy(1, 0, -1, -1, Some(""), None);
      Compare(a, b) == 0 && !Equal(a, b)
  {
  }

  /** The normalised text drops a zero build; the plain text keeps it. */
  lemma NormalizedDropsZeroBuild(v: Legacy)
    requires v.minor >= 0 && v.patch >= 0 && v.build == 0
    ensures ToString(v, false) == NumbersText(v.(build := -1), false) + ".0" + PrereleaseText(v)
    ensures ToString(v, true) == ToString(v.(build := -1), false)
  {
  }

  /** Normalising keeps the version equal to itself and its text unchanged. */
  lemma NormalizedVersionEqual(v: Legacy)
    ensures Equal(ToNormalizedVersion(v), v)
    ensures Compare(ToNormalizedVersion(v), v) == 0
    ensures ToString(ToNormalizedVersion(v), true) == ToString(v, true)
  {
    EqICIsEquivalence(v.prerelease.GetOr(""), "", "");
  }

  /** With three parts and no build, the alias adds a ".0" build before the prerelease. */
  lemma AliasAddsBuild(v: Legacy)
    requires v.minor >= 0 && v.patch >= 0 && v.build < 0
    ensures GetAlias(v) == Some(NumbersText(v, false) + ".0" + PrereleaseText(v))
  {
    assert NatToString(0) == "0";
    var p := "." + NatToString(v.patch);
    var m := "." + NatToString(v.minor);
    assert NumbersText(v.(build := 0), false) == NatToString(v.major) + (m + (p + ".0"));
    assert NumbersText(v, false) == NatToString(v.major) + (m + (p + ""));
    assert (NatToString(v.major) + (m + (p + ""))) + ".0" == NatToString(v.major) + (m + (p + ".0"));
  }

  /** With fewer than three parts there is nowhere to put a build: the alias is the text itself. */
  lemma AliasOfShortVersion(v: Legacy)
    requires v.patch < 0 && v.build < 0
    ensures GetAlias(v) == Some(ToString(v, false))
  {
  }

  /** A parsed version's plain text parses back to an equal version. */
  lemma ParseToString(v: Legacy)
    requires v.major <= Int32Max && v.minor <= Int32Max && v.patch <= Int32Max && v.build <= Int32Max
    requires v.minor >= -1 && v.patch >= -1 && v.build >= -1
    requires v.minor < 0 ==> v.patch < 0
    requires v.patch < 0 ==> v.build < 0
    requires IsNullOrEmpty(v.prerelease) || IsPrereleaseText(v.prerelease.value)
    ensures var s := ToString(v, false);
      TryParse(Some(s)).Ok? && TryParse(Some(s)).value.Some? && Equal(TryParse(Some(s)).value.value, v.(prerelease := Some(v.prerelease.GetOr(""))))
  {
    var ns := [NatToString(v.major)] +
      (if v.minor < 0 then [] else [NatToString(v.minor)]) +
      (if v.patch < 0 then [] else [NatToString(v.patch)]) +
      (if v.build < 0 then [] else [NatToString(v.build)]);
    var g := Groups(ns, v.prerelease.GetOr(""), None);
    ParseGroups(v, ns, g);
  }

  /** The text of well-formed groups parses to their values, with or without a final newline. */
  lemma TryParseRender(g: Groups)
    requires WellFormed(g) && FitsInt32(g.numbers)
    ensures var ns := g.numbers;
      var v := Legacy(DigitsValue(ns[0]), PartValue(ns, 1), PartValue(ns, 2), PartValue(ns, 3), Some(g.prerelease), None);
      TryParse(Some(Render(g))) == Ok(Some(v.(original := Some(Render(g))))) &&
      TryParse(Some(Render(g) + "\n")) == Ok(Some(v.(original := Some(Render(g) + "\n"))))
  {
    MatchOf(g);
    var ns := g.numbers;
    assert IsNumber(ns[0]);
    assert Render(g)[0] == ns[0][0] by {
      if |ns| == 1 {
        assert Join(".", ns) == ns[0];
      }
    }
    assert (Render(g) + "\n")[0] == Render(g)[0];
  }

  lemma PartValues(v: Legacy, ns: seq<string>)
    requires v.major <= Int32Max && v.minor <= Int32Max && v.patch <= Int32Max && v.build <= Int32Max
    requires v.minor >= -1 && v.patch >= -1 && v.build >= -1
    requires v.minor < 0 ==> v.patch < 0
    requires v.patch < 0 ==> v.build < 0
    requires ns == [NatToString(v.major)] +
      (if v.minor < 0 then [] else [NatToString(v.minor)]) +
      (if v.patch < 0 then [] else [NatToString(v.patch)]) +
      (if v.build < 0 then [] else [NatToString(v.build)])
    ensures forall j :: 0 <= j < |ns| ==> IsNumber(ns[j])
    ensures 1 <= |ns| <= 4 && FitsInt32(ns)
    ensures DigitsValue(ns[0]) == v.major && PartValue(ns, 1) == v.minor && PartValue(ns, 2) == v.patch && PartValue(ns, 3) == v.build
  {
    NatToStringValue(v.major);
    if v.minor >= 0 { NatToStringValue(v.minor); }
    if v.patch >= 0 { NatToStringValue(v.patch); }
    if v.build >= 0 { NatToStringValue(v.build); }
  }

  lemma ParseGroups(v: Legacy, ns: seq<string>, g: Groups)
    requires v.major <= Int32Max && v.minor <= Int32Max && v.patch <= Int32Max && v.build <= Int32Max
    requires v.minor >= -1 && v.patch >= -1 && v.build >= -1
    requires v.minor < 0 ==> v.patch < 0
    requires v.patch < 0 ==> v.build < 0
    requires IsNullOrEmpty(v.prerelease) || IsPrereleaseText(v.prerelease.value)
    requires ns == [NatToString(v.major)] +
      (if v.minor < 0 then [] else [NatToString(v.minor)]) +
      (if v.patch < 0 then [] else [NatToString(v.patch)]) +
      (if v.build < 0 then [] else [NatToString(v.build)])
    requires g == Groups(ns, v.prerelease.GetOr(""), None)
    ensures var s := ToString(v, false);
      TryParse(Some(s)).Ok? && TryParse(Some(s)).value.Some? && Equal(TryParse(Some(s)).value.value, v.(prerelease := Some(v.prerelease.GetOr(""))))
  {
    assert Render(g) == ToString(v, false) by {
      JoinParts(v, ns);
      assert SuffixText(g.prerelease, g.metadata) == PrereleaseText(v);
    }
    PartValues(v, ns);
    TryParseRender(g);
    var s := ToString(v, false);
    var p := Some(v.prerelease.GetOr(""));
    assert TryParse(Some(s)) == Ok(Some(Legacy(v.major, v.minor, v.patch, v.build, p, Some(s))));
    EqICIsEquivalence(p.value, "", "");
    assert EqICOpt(p, p);
  }

  lemma JoinParts(v: Legacy, ns: seq<string>)
    requires v.minor < 0 ==> v.patch < 0
    requires v.patch < 0 ==> v.build < 0
    requires ns == [NatToString(v.major)] +
      (if v.minor < 0 then [] else [NatToString(v.minor)]) +
      (if v.patch < 0 then [] else [NatToString(v.patch)]) +
      (if v.build < 0 then [] else [NatToString(v.build)])
    ensures Join(".", ns) == NumbersText(v, false)
  {
    if v.minor >= 0 {
      assert ns[1..] == [NatToString(v.minor)] + (if v.patch < 0 then [] else [NatToString(v.patch)]) + (if v.build < 0 then [] else [NatToString(v.build)]);
      if v.patch >= 0 {
        assert ns[2..] == [NatToString(v.patch)] + (if v.build < 0 then [] else [NatToString(v.build)]);
        if v.build >= 0 {
          assert ns[3..] == [NatToString(v.build)];
          assert Join(".", ns[3..]) == NatToString(v.build);
          assert Join(".", ns[2..]) == NatToString(v.patch) + "." + NatToString(v.build);
        } else {
          assert Join(".", ns[2..]) == NatToString(v.patch);
        }
        assert Join(".", ns[1..]) == NatToString(v.minor) + "." + Join(".", ns[2..]);
      }
    }
  }
}
