/**
 * `ValueSemanticVersion2`: Semantic Versioning 2.0.0 versions with
 * unbounded numeric components, an optional prerelease and optional build
 * metadata, the text grammar
 * `^[0-9]+\.[0-9]+\.[0-9]+(-[0-9a-zA-Z.-]+)?(\+[0-9a-zA-Z.-]+)?$`
 * and the precedence rules of section 11 of Semantic Versioning 2.0.0.
 */
module SemVer {
  import opened Common

  /** A version; `prerelease` and `build` are never `Some("")`. */
  datatype SemVer = SemVer(major: nat, minor: nat, patch: nat, prerelease: Option<string>, build: Option<string>)

  /** The constructor: an empty prerelease or build is stored as null. */
  function Create(major: nat, minor: nat, patch: nat, prerelease: Option<string>, build: Option<string>): (v: SemVer)
    ensures v.major == major && v.minor == minor && v.patch == patch
    ensures v.prerelease.None? <==> IsNullOrEmpty(prerelease)
    ensures v.prerelease.Some? ==> v.prerelease == prerelease
    ensures v.build.None? <==> IsNullOrEmpty(build)
    ensures v.build.Some? ==> v.build == build
  {
    SemVer(major, minor, patch,
      if IsNullOrEmpty(prerelease) then None else prerelease,
      if IsNullOrEmpty(build) then None else build)
  }

  // ---------------------------------------------------------------------------
  // Text grammar

  /** The characters of a prerelease or build: `[0-9a-zA-Z.-]`. */
  predicate IsIdChar(c: char)
  {
    IsDigit(c) || IsAsciiLetter(c) || c == '.' || c == '-'
  }

  predicate IdChars(s: string)
  {
    forall i :: 0 <= i < |s| ==> IsIdChar(s[i])
  }

  /** The five capture groups; an absent prerelease or build captures "". */
  datatype Groups = Groups(major: string, minor: string, patch: string, prerelease: string, build: string)

  predicate IsNumber(s: string)
  {
    s != [] && AllDigits(s)
  }

  predicate WellFormed(g: Groups)
  {
    IsNumber(g.major) && IsNumber(g.minor) && IsNumber(g.patch) && IdChars(g.prerelease) && IdChars(g.build)
  }

  function SuffixText(prerelease: string, build: string): string
  {
    (if prerelease == "" then "" else "-" + prerelease) + (if build == "" then "" else "+" + build)
  }

  /** The text the groups were matched from. */
  function Render(g: Groups): string
  {
    g.major + "." + (g.minor + "." + (g.patch + SuffixText(g.prerelease, g.build)))
  }

  /** `[0-9]+` followed by '.', and what follows the dot. */
  function NumberDot(t: string): (r: Option<(string, string)>)
    ensures r.Some? ==> IsNumber(r.value.0) && t == r.value.0 + "." + r.value.1
  {
    var i := Skip(t, 0, IsDigit);
    if i == 0 || i == |t| || t[i] != '.' then None
    else
      assert t == t[..i] + "." + t[i + 1..];
      SliceAll(t, 0, i, IsDigit);
      Some((t[..i], t[i + 1..]))
  }

  /** `(\+[0-9a-zA-Z.-]+)?` reaching the end of the text. */
  function BuildPart(w: string): (r: Option<string>)
    ensures r.Some? ==> IdChars(r.value) && w == (if r.value == "" then "" else "+" + r.value)
  {
    if w == [] then Some("")
    else if w[0] != '+' then None
    else
      var n := Skip(w, 1, IsIdChar);
      if n == 1 || n != |w| then None
      else
        SliceAll(w, 1, n, IsIdChar);
        assert w == "+" + w[1..];
        Some(w[1..])
  }

  /** `(-[0-9a-zA-Z.-]+)?(\+[0-9a-zA-Z.-]+)?` reaching the end of the text. */
  function MatchSuffix(u: string): (r: Option<(string, string)>)
    ensures r.Some? ==> IdChars(r.value.0) && IdChars(r.value.1) && u == SuffixText(r.value.0, r.value.1)
  {
    if u != [] && u[0] == '-' then
      var m := Skip(u, 1, IsIdChar);
      if m == 1 then None
      else
        match BuildPart(u[m..])
        case None => None
        case Some(b) =>
          SliceAll(u, 1, m, IsIdChar);
          assert u == "-" + u[1..m] + u[m..];
          Some((u[1..m], b))
    else
      match BuildPart(u)
      case None => None
      case Some(b) => Some(("", b))
  }

  /** The regular expression on text that must be matched to its very end. */
  function MatchText(t: string): (r: Option<Groups>)
    ensures r.Some? ==> WellFormed(r.value) && Render(r.value) == t
  {
    match NumberDot(t)
    case None => None
    case Some((major, r1)) =>
      match NumberDot(r1)
      case None => None
      case Some((minor, r2)) =>
        var k := Skip(r2, 0, IsDigit);
        if k == 0 then None
        else
          match MatchSuffix(r2[k..])
          case None => None
          case Some((pre, build)) =>
            LeadingNumber(r2, k);
            Some(Groups(major, minor, r2[..k], pre, build))
  }

  /** The digits `Skip` found at the start of `t` form a number followed by the rest of `t`. */
  lemma LeadingNumber(t: string, k: nat)
    requires 0 < k <= |t| && k == Skip(t, 0, IsDigit)
    ensures IsNumber(t[..k]) && t == t[..k] + t[k..]
  {
    SliceAll(t, 0, k, IsDigit);
    assert t == t[..k] + t[k..];
  }

  /** `Regex.Match`: `$` also matches just before a final newline. */
  function Match(s: string): (r: Option<Groups>)
    ensures r.Some? ==> WellFormed(r.value) && (s == Render(r.value) || s == Render(r.value) + "\n")
  {
    if EndsWith(s, "\n") then
      var r := MatchText(s[..|s| - 1]);
      assert r.Some? ==> s == s[..|s| - 1] + "\n";
      r
    else MatchText(s)
  }

  /** `ParseInternal`/`Parse`: `Err` is the `FormatException` for text outside the grammar. */
  function Parse(s: Option<string>): (r: Result<SemVer>)
    ensures r.Err? <==> Match(s.GetOr("")).None?
    ensures r.Ok? ==> r.value.prerelease != Some("") && r.value.build != Some("")
  {
    match Match(s.GetOr(""))
    case None => Err("FormatException")
    case Some(g) =>
      Ok(Create(DigitsValue(g.major), DigitsValue(g.minor), DigitsValue(g.patch), NullIfEmpty(g.prerelease), NullIfEmpty(g.build)))
  }

  /** `TryParse`. */
  function TryParse(s: Option<string>): (r: Option<SemVer>)
    ensures r.Some? <==> Parse(s).Ok?
  {
    match Parse(s)
    case Ok(v) => Some(v)
    case Err(_) => None
  }

  lemma NumberDotOf(d: string, rest: string)
    requires IsNumber(d)
    ensures NumberDot(d + "." + rest) == Some((d, rest))
  {
    var t := d + "." + rest;
    assert t == d + ("." + rest);
    SkipOver(d, "." + rest, 0, IsDigit);
    assert t[..|d|] == d && t[|d| + 1..] == rest;
  }

  lemma BuildPartOf(b: string)
    requires IdChars(b)
    ensures BuildPart(if b == "" then "" else "+" + b) == Some(b)
  {
    if b != "" {
      var w := "+" + b;
      assert forall j :: 1 <= j < |w| ==> w[j] == b[j - 1];
      assert w + "" == w;
      SkipOver(w, "", 1, IsIdChar);
      assert w[1..] == b;
    }
  }

  lemma MatchSuffixOf(pre: string, b: string)
    requires IdChars(pre) && IdChars(b)
    ensures MatchSuffix(SuffixText(pre, b)) == Some((pre, b))
  {
    var bt := if b == "" then "" else "+" + b;
    BuildPartOf(b);
    if pre != "" {
      var x := "-" + pre;
      var u := x + bt;
      assert u == SuffixText(pre, b);
      assert forall j :: 1 <= j < |x| ==> x[j] == pre[j - 1];
      SkipOver(x, bt, 1, IsIdChar);
      assert u[1..|x|] == pre && u[|x|..] == bt;
    } else {
      assert SuffixText(pre, b) == bt;
    }
  }

  /** Every well-formed text matches, and the match recovers its groups. */
  lemma MatchTextOf(g: Groups)
    requires WellFormed(g)
    ensures MatchText(Render(g)) == Some(g)
  {
    var suffix := SuffixText(g.prerelease, g.build);
    var r2 := g.patch + suffix;
    var r1 := g.minor + "." + r2;
    NumberDotOf(g.major, r1);
    NumberDotOf(g.minor, r2);
    assert suffix == [] || suffix[0] == '-' || suffix[0] == '+';
    SkipOver(g.patch, suffix, 0, IsDigit);
    assert r2[..|g.patch|] == g.patch && r2[|g.patch|..] == suffix;
    MatchSuffixOf(g.prerelease, g.build);
  }

  lemma NoNewline(g: Groups)
    requires WellFormed(g)
    ensures !EndsWith(Render(g), "\n")
  {
    var s := Render(g);
    var last := s[|s| - 1];
    if g.build != "" {
      assert last == g.build[|g.build| - 1];
    } else if g.prerelease != "" {
      assert last == g.prerelease[|g.prerelease| - 1];
    } else {
      assert last == g.patch[|g.patch| - 1];
    }
  }

  /**
   * Parsing accepts exactly the grammar: the text of well-formed groups
   * matches, with or without one final newline, and yields those groups.
   */
  lemma MatchOf(g: Groups)
    requires WellFormed(g)
    ensures Match(Render(g)) == Some(g)
    ensures Match(Render(g) + "\n") == Some(g)
  {
    MatchTextOf(g);
    NoNewline(g);
    var s := Render(g) + "\n";
    assert s[..|s| - 1] == Render(g);
  }

  // ---------------------------------------------------------------------------
  // Formatting

  /** The text of a version, with or without its build metadata. */
  function Text(v: SemVer, withBuild: bool): string
  {
    NatToString(v.major) + "." + (NatToString(v.minor) + "." + (NatToString(v.patch) +
      SuffixText(v.prerelease.GetOr(""), if withBuild then v.build.GetOr("") else "")))
  }

  /** `ToString(format)`: "U" leaves out the build, "G" keeps it, anything else throws. */
  function ToString(v: SemVer, format: string): (r: Result<string>)
    ensures r.Err? <==> format != "U" && format != "G"
    ensures format == "U" ==> r == Ok(Text(v, false))
    ensures format == "G" ==> r == Ok(Text(v, true))
  {
    if format != "U" && format != "G" then Err("ArgumentException")
    else Ok(Text(v, format != "U"))
  }

  /** `ToString()`. */
  function ToStringDefault(v: SemVer): (r: string)
    ensures ToString(v, "G") == Ok(r)
  {
    Text(v, true)
  }

  /** A version the parser can produce: prerelease and build, when present, are non-empty identifier text. */
  predicate Valid(v: SemVer)
  {
    (v.prerelease.Some? ==> v.prerelease.value != "" && IdChars(v.prerelease.value)) &&
    (v.build.Some? ==> v.build.value != "" && IdChars(v.build.value))
  }

  /** The groups a version's text is made of. */
  function GroupsOf(v: SemVer, withBuild: bool): (g: Groups)
    requires Valid(v)
    ensures WellFormed(g) && Render(g) == Text(v, withBuild)
  {
    Groups(NatToString(v.major), NatToString(v.minor), NatToString(v.patch),
      v.prerelease.GetOr(""), if withBuild then v.build.GetOr("") else "")
  }

  lemma ParseGroupsOf(v: SemVer, withBuild: bool)
    requires Valid(v)
    ensures Parse(Some(Text(v, withBuild))) == Ok(if withBuild then v else v.(build := None))
  {
    MatchOf(GroupsOf(v, withBuild));
    NatToStringValue(v.major);
    NatToStringValue(v.minor);
    NatToStringValue(v.patch);
  }

  /** Round trip: the "G" text parses back to all five components. */
  lemma ParseToStringG(v: SemVer)
    requires Valid(v)
    ensures ToString(v, "G").Ok? && Parse(Some(ToString(v, "G").value)) == Ok(v)
  {
    ParseGroupsOf(v, true);
  }

  /** The "U" text parses back to the version without its build metadata. */
  lemma ParseToStringU(v: SemVer)
    requires Valid(v)
    ensures ToString(v, "U").Ok? && Parse(Some(ToString(v, "U").value)) == Ok(v.(build := None))
  {
    ParseGroupsOf(v, false);
  }

  /** Everything `Parse` produces is valid, so the round trips apply to it. */
  lemma ParsedValid(s: Option<string>)
    requires Parse(s).Ok?
    ensures Valid(Parse(s).value)
  {
  }

  // ---------------------------------------------------------------------------
  // Equality and precedence

  /** `Equals`: build metadata is ignored, the prerelease compared ignoring case. */
  predicate Equal(a: SemVer, b: SemVer)
  {
    a.major == b.major && a.minor == b.minor && a.patch == b.patch && EqICOpt(a.prerelease, b.prerelease)
  }

  /**
   * One prerelease identifier against another, as `BigInteger.TryParse` sees
   * them: two numbers by value, a number below anything else, and two
   * non-numbers by ordinal text.
   */
  function CompareIdentifier(x: string, y: string): (r: int)
    ensures r in {-1, 0, 1}
  {
    var nx := ParseInteger(x);
    var ny := ParseInteger(y);
    if nx.Some? && ny.Some? then CompareInt(nx.value, ny.value)
    else if nx.None? && ny.Some? then 1
    else if nx.Some? && ny.None? then -1
    else CompareOrdinal(x, y)
  }

  /** Identifier lists compared pairwise; the one that runs out first is lower. */
  function CompareIdentifiers(xs: seq<string>, ys: seq<string>): (r: int)
    ensures r in {-1, 0, 1}
  {
    if xs == [] && ys == [] then 0
    else if xs == [] then -1
    else if ys == [] then 1
    else
      var d := CompareIdentifier(xs[0], ys[0]);
      if d != 0 then d else CompareIdentifiers(xs[1..], ys[1..])
  }

  /** Precedence as a function of the two versions, the sign of `Compare`. */
  function Precedence(a: SemVer, b: SemVer): (r: int)
    ensures r in {-1, 0, 1}
  {
    if a.major != b.major then CompareInt(a.major, b.major)
    else if a.minor != b.minor then CompareInt(a.minor, b.minor)
    else if a.patch != b.patch then CompareInt(a.patch, b.patch)
    else match (a.prerelease, b.prerelease)
      case (None, None) => 0
      case (None, Some(_)) => 1
      case (Some(_), None) => -1
      case (Some(x), Some(y)) => CompareIdentifiers(Split(x, '.'), Split(y, '.'))
  }

  /** `Compare`, walking the prerelease identifiers with an index. */
  method Compare(a: SemVer, b: SemVer) returns (r: int)
    ensures r == Precedence(a, b)
  {
    r := CompareInt(a.major, b.major);
    if r != 0 { return; }
    r := CompareInt(a.minor, b.minor);
    if r != 0 { return; }
    r := CompareInt(a.patch, b.patch);
    if r != 0 { return; }
    if a.prerelease.None? && b.prerelease.None? { return 0; }
    if a.prerelease.None? && b.prerelease.Some? { return 1; }
    if a.prerelease.Some? && b.prerelease.None? { return -1; }
    var xs := Split(a.prerelease.value, '.');
    var ys := Split(b.prerelease.value, '.');
    var index := 0;
    while true
      invariant 0 <= index <= |xs| && index <= |ys|
      invariant CompareIdentifiers(xs[index..], ys[index..]) == Precedence(a, b)
      decreases |xs| - index
    {
      if index == |xs| && index == |ys| {
        break;
      }
      if index == |xs| { return -1; }
      if index == |ys| { return 1; }
      var next := index + 1;
      CompareIdentifiersAt(xs, ys, index, next);
      var x, y := xs[index], ys[index];
      var nx, ny := ParseInteger(x), ParseInteger(y);
      if nx.Some? && ny.Some? {
        r := CompareInt(nx.value, ny.value);
        if r != 0 { return; }
      } else if nx.None? && ny.Some? {
        return 1;
      } else if nx.Some? && ny.None? {
        return -1;
      } else {
        r := CompareOrdinal(x, y);
        if r != 0 { return; }
      }
      index := next;
    }
    return 0;
  }

  /** One step of the walk: the identifiers at `i` decide, or the lists from `next` do. */
  lemma CompareIdentifiersAt(xs: seq<string>, ys: seq<string>, i: nat, next: nat)
    requires i < |xs| && i < |ys| && next == i + 1
    ensures CompareIdentifiers(xs[i..], ys[i..]) ==
      var d := CompareIdentifier(xs[i], ys[i]);
      if d != 0 then d else CompareIdentifiers(xs[next..], ys[next..])
  {
    assert xs[i..][1..] == xs[next..] && ys[i..][1..] == ys[next..];
    assert xs[i..][0] == xs[i] && ys[i..][0] == ys[i];
  }

  // ---------------------------------------------------------------------------
  // Properties

  lemma CompareIdentifierAntisymmetric(x: string, y: string)
    ensures CompareIdentifier(x, y) == -CompareIdentifier(y, x)
  {
    CompareOrdinalAntisymmetric(x, y);
  }

  lemma {:induction false} CompareIdentifiersAntisymmetric(xs: seq<string>, ys: seq<string>)
    ensures CompareIdentifiers(xs, ys) == -CompareIdentifiers(ys, xs)
  {
    if xs != [] && ys != [] {
      CompareIdentifierAntisymmetric(xs[0], ys[0]);
      CompareIdentifiersAntisymmetric(xs[1..], ys[1..]);
    }
  }

  /** Precedence is antisymmetric. */
  lemma PrecedenceAntisymmetric(a: SemVer, b: SemVer)
    ensures Precedence(a, b) == -Precedence(b, a)
  {
    if a.prerelease.Some? && b.prerelease.Some? {
      CompareIdentifiersAntisymmetric(Split(a.prerelease.value, '.'), Split(b.prerelease.value, '.'));
    }
  }

  lemma {:induction false} CompareIdentifiersReflexive(xs: seq<string>)
    ensures CompareIdentifiers(xs, xs) == 0
  {
    if xs != [] {
      CompareIdentifiersReflexive(xs[1..]);
    }
  }

  lemma PrecedenceReflexive(a: SemVer)
    ensures Precedence(a, a) == 0
  {
    if a.prerelease.Some? {
      CompareIdentifiersReflexive(Split(a.prerelease.value, '.'));
    }
  }

  /** Major, then minor, then patch decide before anything else does. */
  lemma NumbersDecideFirst(a: SemVer, b: SemVer)
    ensures a.major < b.major ==> Precedence(a, b) == -1
    ensures a.major == b.major && a.minor < b.minor ==> Precedence(a, b) == -1
    ensures a.major == b.major && a.minor == b.minor && a.patch < b.patch ==> Precedence(a, b) == -1
  {
  }

  /** With equal numbers, a release is greater than any prerelease of it. */
  lemma ReleaseAbovePrerelease(a: SemVer, b: SemVer)
    requires a.major == b.major && a.minor == b.minor && a.patch == b.patch
    requires a.prerelease.None? && b.prerelease.Some?
    ensures Precedence(a, b) == 1 && Precedence(b, a) == -1
  {
  }

  /** A numeric identifier is lower than an alphanumeric one. */
  lemma NumericBelowAlphanumeric(x: string, y: string)
    requires ParseInteger(x).Some? && ParseInteger(y).None?
    ensures CompareIdentifier(x, y) == -1 && CompareIdentifier(y, x) == 1
  {
  }

  /** Of two identifier lists where one extends the other, the shorter is lower. */
  lemma {:induction false} ShorterListLower(xs: seq<string>, more: seq<string>)
    requires more != []
    ensures CompareIdentifiers(xs, xs + more) == -1
  {
    if xs != [] {
      assert (xs + more)[0] == xs[0] && (xs + more)[1..] == xs[1..] + more;
      CompareIdentifiersReflexive([xs[0]]);
      ShorterListLower(xs[1..], more);
    }
  }

  /** Build metadata never takes part in equality or precedence. */
  lemma BuildIgnored(a: SemVer, b: SemVer, build: Option<string>)
    ensures Equal(a, b) == Equal(a.(build := build), b)
    ensures Precedence(a, b) == Precedence(a.(build := build), b)
  {
  }

  /** Equality ignores case in the prerelease ... */
  lemma EqualIgnoresPrereleaseCase()
    ensures Equal(SemVer(1, 0, 0, Some("beta"), None), SemVer(1, 0, 0, Some("BETA"), None))
  {
    assert UpperStr("beta") == "BETA";
    assert UpperStr("BETA") == "BETA";
  }

  lemma NotNumeric(x: string)
    requires x != [] && !IsDigit(x[0]) && x[0] != '-' && x[0] != '+' && !IsWhite(x[0]) && !IsWhite(x[|x| - 1])
    ensures ParseInteger(x) == None
  {
    TrimOfTrimmed(x);
  }

  /** ... while precedence, comparing identifiers by code unit, does not: "beta" sorts above "BETA". */
  lemma PrecedenceKeepsPrereleaseCase()
    ensures Precedence(SemVer(1, 0, 0, Some("beta"), None), SemVer(1, 0, 0, Some("BETA"), None)) == 1
  {
    assert Split("beta", '.') == ["beta"];
    assert Split("BETA", '.') == ["BETA"];
    NotNumeric("beta");
    NotNumeric("BETA");
  }
}
