/**
 * `PowerShellVersion` and its three kinds: a Semantic Versioning 2.0.0
 * version (`SemVer2PowerShellVersion`), a NuGet-style legacy version
 * (`LegacyPowerShellVersion`) and the fallback for text that is neither
 * (`InvalidPowerShellVersion`), with equality and ordering across kinds.
 * A null version reference is `None`.
 */
module PSVersions {
  import opened Common
  import SemVer
  import LegacyVersion

  datatype PSVersion =
    | SemVer2(original: string, semver: SemVer.SemVer)
    | Legacy(legacy: LegacyVersion.Legacy)
    | Invalid(original: string)

  // ---------------------------------------------------------------------------
  // Parsing

  /** `SemVer2PowerShellVersion.TryParse`: null exactly when `ValueSemanticVersion2.TryParse` fails. */
  function TryParseSemVer2(s: Option<string>): (r: Option<PSVersion>)
    ensures r.None? <==> SemVer.TryParse(s).None?
    ensures r.Some? ==> s.Some? && r.value == SemVer2(s.value, SemVer.TryParse(s).value)
  {
    match SemVer.TryParse(s)
    case None => None
    case Some(v) => if s.Some? then Some(SemVer2(s.value, v)) else None
  }

  /**
   * `Parse`: SemVer2 first, then legacy, then the invalid fallback. It never
   * yields null; the only failure is the `OverflowException` of a legacy part
   * above `int.MaxValue`.
   */
  function Parse(s: string): (r: Result<PSVersion>)
    ensures r.Ok? && r.value.SemVer2? <==> SemVer.TryParse(Some(s)).Some?
    ensures r.Ok? && r.value.Legacy? <==> SemVer.TryParse(Some(s)).None? && LegacyVersion.TryParse(Some(s)).Ok? && LegacyVersion.TryParse(Some(s)).value.Some?
    ensures r.Ok? && r.value.Invalid? <==> SemVer.TryParse(Some(s)).None? && LegacyVersion.TryParse(Some(s)) == Ok(None)
    ensures r.Err? <==> SemVer.TryParse(Some(s)).None? && LegacyVersion.TryParse(Some(s)).Err?
    ensures r.Ok? ==> OriginalString(r.value) == s
  {
    match TryParseSemVer2(Some(s))
    case Some(v) => Ok(v)
    case None =>
      match LegacyVersion.TryParse(Some(s))
      case Err(e) => Err(e)
      case Ok(Some(l)) => Ok(Legacy(l))
      case Ok(None) => Ok(Invalid(s))
  }

  // ---------------------------------------------------------------------------
  // Accessors

  predicate IsValid(v: PSVersion)
  {
    !v.Invalid?
  }

  function Major(v: PSVersion): nat
  {
    match v
    case SemVer2(_, s) => s.major
    case Legacy(l) => l.major
    case Invalid(_) => 0
  }

  function Minor(v: PSVersion): Option<int>
  {
    match v
    case SemVer2(_, s) => Some(s.minor)
    case Legacy(l) => LegacyVersion.Present(l.minor)
    case Invalid(_) => None
  }

  function Patch(v: PSVersion): Option<int>
  {
    match v
    case SemVer2(_, s) => Some(s.patch)
    case Legacy(l) => LegacyVersion.Present(l.patch)
    case Invalid(_) => None
  }

  function Prerelease(v: PSVersion): Option<string>
  {
    match v
    case SemVer2(_, s) => s.prerelease
    case Legacy(l) => l.prerelease
    case Invalid(_) => None
  }

  predicate IsPrerelease(v: PSVersion)
  {
    !IsNullOrEmpty(Prerelease(v))
  }

  function ToString(v: PSVersion): string
  {
    match v
    case SemVer2(_, s) => SemVer.ToStringDefault(s)
    case Legacy(l) => LegacyVersion.ToString(l, false)
    case Invalid(o) => o
  }

  /** `OriginalString`: the text the version came from. */
  function OriginalString(v: PSVersion): string
  {
    match v
    case SemVer2(o, _) => o
    case Legacy(l) => LegacyVersion.OriginalString(l)
    case Invalid(o) => o
  }

  /**
   * `OriginalUniquePart`: the original text without "+build"; for SemVer2 it
   * cuts off as many characters as the build has, plus one.
   */
  function OriginalUniquePart(v: PSVersion): (r: Result<string>)
    ensures v.Legacy? ==> r == Ok(LegacyVersion.OriginalUniquePart(v.legacy))
    ensures v.Invalid? ==> r == Ok(v.original)
    ensures v.SemVer2? && v.semver.build.None? ==> r == Ok(v.original)
    ensures v.SemVer2? && v.semver.build.Some? && r.Ok? ==> r.value + "+" + v.semver.build.value == v.original || |r.value| + |v.semver.build.value| + 1 == |v.original|
    ensures r.Err? <==> v.SemVer2? && v.semver.build.Some? && |v.original| < |v.semver.build.value| + 1
  {
    match v
    case SemVer2(o, s) =>
      if s.build.None? then Ok(o)
      else if |o| < |s.build.value| + 1 then Err("ArgumentOutOfRangeException")
      else Ok(o[..|o| - |s.build.value| - 1])
    case Legacy(l) => Ok(LegacyVersion.OriginalUniquePart(l))
    case Invalid(o) => Ok(o)
  }

  // ---------------------------------------------------------------------------
  // Equality and ordering across kinds

  /** `LegacyAndSemVerEquals`: a legacy version with a non-zero build never equals a SemVer2 one. */
  predicate LegacyAndSemVerEquals(l: LegacyVersion.Legacy, s: SemVer.SemVer)
  {
    (l.build <= 0) &&
    l.major == s.major && LegacyVersion.Present(l.minor) == Some(s.minor) && LegacyVersion.Present(l.patch) == Some(s.patch) &&
    EqIC(l.prerelease.GetOr(""), s.prerelease.GetOr(""))
  }

  /** `LegacyAndSemVerCompare`, as a sign; `None` is a null legacy argument. */
  function LegacyAndSemVerCompare(l: Option<LegacyVersion.Legacy>, s: Option<SemVer.SemVer>): (r: int)
    ensures r in {-1, 0, 1}
  {
    if l.None? then -1
    else if s.None? then 1
    else
      var a, b := l.value, s.value;
      if a.major != b.major then CompareInt(a.major, b.major)
      else if LegacyVersion.Present(a.minor) != Some(b.minor) then (if a.minor < 0 then -1 else CompareInt(a.minor, b.minor))
      else if LegacyVersion.Present(a.patch) != Some(b.patch) then (if a.patch < 0 then -1 else CompareInt(a.patch, b.patch))
      else if a.build > 0 then 1
      else CompareIC(a.prerelease.GetOr(""), b.prerelease.GetOr(""))
  }

  /** The instance `Equals(PowerShellVersion other)` of each kind. */
  predicate EqualsTo(a: PSVersion, b: Option<PSVersion>)
  {
    match (a, b)
    case (_, None) => false
    case (SemVer2(_, x), Some(SemVer2(_, y))) => SemVer.Equal(x, y)
    case (SemVer2(_, x), Some(Legacy(l))) => LegacyAndSemVerEquals(l, x)
    case (Legacy(l), Some(SemVer2(_, x))) => LegacyAndSemVerEquals(l, x)
    case (Legacy(l), Some(Legacy(m))) => LegacyVersion.Equal(l, m)
    case (Invalid(o), Some(Invalid(p))) => EqIC(o, p)
    case _ => false
  }

  /** The instance `CompareTo(PowerShellVersion other)` of each kind; `other` may be null. */
  function CompareTo(a: PSVersion, b: Option<PSVersion>): (r: int)
    ensures r in {-1, 0, 1}
  {
    match a
    case SemVer2(_, x) =>
      if b.Some? && b.value.SemVer2? then SemVer.Precedence(x, b.value.semver)
      else if b.Some? && b.value.Invalid? then -1
      else -LegacyAndSemVerCompare(if b.Some? then Some(b.value.legacy) else None, Some(x))
    case Legacy(l) =>
      if b.Some? && b.value.Legacy? then LegacyVersion.Compare(l, b.value.legacy)
      else if b.Some? && b.value.Invalid? then -1
      else LegacyAndSemVerCompare(Some(l), if b.Some? then Some(b.value.semver) else None)
    case Invalid(o) =>
      if b.Some? && b.value.Invalid? then CompareIC(o, b.value.original) else 1
  }

  /** The static `Equals`: two nulls are equal, a null and a version are not. */
  predicate Equals(v1: Option<PSVersion>, v2: Option<PSVersion>)
  {
    if v1.None? || v2.None? then v1.None? && v2.None? else EqualsTo(v1.value, v2)
  }

  /** The static `Compare`: a null first argument is lowest. */
  function Compare(v1: Option<PSVersion>, v2: Option<PSVersion>): (r: int)
    ensures r in {-1, 0, 1}
    ensures v1.None? ==> r == (if v2.None? then 0 else -1)
  {
    if v1.None? then (if v2.None? then 0 else -1) else CompareTo(v1.value, v2)
  }

  /** The operators `<`, `<=`, `>`, `>=`, `==` and `!=`. */
  predicate Less(a: Option<PSVersion>, b: Option<PSVersion>) { Compare(a, b) < 0 }
  predicate AtMost(a: Option<PSVersion>, b: Option<PSVersion>) { Compare(a, b) <= 0 }
  predicate Greater(a: Option<PSVersion>, b: Option<PSVersion>) { Compare(a, b) > 0 }
  predicate AtLeast(a: Option<PSVersion>, b: Option<PSVersion>) { Compare(a, b) >= 0 }

  // ---------------------------------------------------------------------------
  // Normalisation and aliases

  /** `ToNormalizedVersion`: SemVer2 loses its build, legacy loses a zero build, invalid stays. */
  function ToNormalizedVersion(v: PSVersion): (r: PSVersion)
    ensures v.Invalid? ==> r == v
    ensures v.SemVer2? && !IsNullOrEmpty(v.semver.build) ==>
      r == SemVer2(v.original, v.semver.(build := None, prerelease := if IsNullOrEmpty(v.semver.prerelease) then None else v.semver.prerelease))
    ensures v.SemVer2? && IsNullOrEmpty(v.semver.build) ==> r == v
    ensures v.Legacy? ==> r == Legacy(LegacyVersion.ToNormalizedVersion(v.legacy))
  {
    match v
    case SemVer2(o, s) =>
      if IsNullOrEmpty(s.build) then v
      else SemVer2(o, SemVer.Create(s.major, s.minor, s.patch, s.prerelease, None))
    case Legacy(l) => Legacy(LegacyVersion.ToNormalizedVersion(l))
    case Invalid(_) => v
  }

  /** `GetAlias`; `Err` is the exception of inserting at a missing '-'. */
  function GetAlias(v: PSVersion): (r: Result<Option<string>>)
    ensures v.Invalid? ==> r == Ok(None)
    ensures v.Legacy? ==> r == Ok(LegacyVersion.GetAlias(v.legacy))
    ensures v.SemVer2? && !IsPrerelease(v) ==> r == Ok(Some(SemVer.Text(v.semver, false) + ".0"))
  {
    match v
    case SemVer2(_, s) =>
      var ver := SemVer.Text(s, false);
      if IsPrerelease(v) then
        var k := IndexOfChar(ver, '-');
        if k < 0 then Err("ArgumentOutOfRangeException") else Ok(Some(ver[..k] + ".0" + ver[k..]))
      else Ok(Some(ver + ".0"))
    case Legacy(l) => Ok(LegacyVersion.GetAlias(l))
    case Invalid(_) => Ok(None)
  }

  // ---------------------------------------------------------------------------
  // Properties

  /** Ordering is antisymmetric across all kinds, nulls included. */
  lemma CompareAntisymmetric(a: Option<PSVersion>, b: Option<PSVersion>)
    ensures Compare(a, b) == -Compare(b, a)
  {
    if a.Some? && b.Some? {
      match (a.value, b.value)
      case (SemVer2(_, x), SemVer2(_, y)) => SemVer.PrecedenceAntisymmetric(x, y);
      case (Legacy(l), Legacy(m)) => LegacyVersion.CompareAntisymmetric(l, m);
      case (Invalid(o), Invalid(p)) => CompareICAntisymmetric(o, p);
      case _ =>
    }
  }

  /** A version compares equal to and equals itself, as the reference shortcut says. */
  lemma SelfCompare(v: PSVersion)
    ensures Compare(Some(v), Some(v)) == 0
    ensures Equals(Some(v), Some(v))
  {
    match v
    case SemVer2(_, x) =>
      SemVer.PrecedenceReflexive(x);
      EqICIsEquivalence(x.prerelease.GetOr(""), "", "");
    case Legacy(l) => EqICIsEquivalence(l.prerelease.GetOr(""), "", "");
    case Invalid(o) => EqICIsEquivalence(o, "", "");
  }

  /** A non-null version is above null, whatever its kind. */
  lemma AboveNull(v: PSVersion)
    ensures Compare(Some(v), None) == 1
    ensures !Equals(Some(v), None) && !Equals(None, Some(v)) && Equals(None, None)
  {
  }

  /** The operators agree with one another through antisymmetry. */
  lemma OperatorsAgree(a: Option<PSVersion>, b: Option<PSVersion>)
    ensures Less(a, b) <==> Greater(b, a)
    ensures AtMost(a, b) <==> AtLeast(b, a)
    ensures AtMost(a, b) <==> !Greater(a, b)
  {
    CompareAntisymmetric(a, b);
  }

  /** An invalid version sorts after every valid one and equals none. */
  lemma InvalidAfterValid(i: PSVersion, v: PSVersion)
    requires i.Invalid? && IsValid(v)
    ensures CompareTo(i, Some(v)) == 1 && CompareTo(v, Some(i)) == -1
    ensures !EqualsTo(i, Some(v)) && !EqualsTo(v, Some(i))
  {
  }

  /** Two invalid versions compare and equate by their text, ignoring case. */
  lemma InvalidByText(o: string, p: string)
    ensures CompareTo(Invalid(o), Some(Invalid(p))) == 0 <==> EqIC(o, p)
    ensures EqualsTo(Invalid(o), Some(Invalid(p))) <==> EqIC(o, p)
  {
  }

  /** The invalid version's accessors. */
  lemma InvalidAccessors(o: string)
    ensures !IsValid(Invalid(o)) && Major(Invalid(o)) == 0
    ensures Minor(Invalid(o)).None? && Patch(Invalid(o)).None? && Prerelease(Invalid(o)).None?
    ensures ToNormalizedVersion(Invalid(o)) == Invalid(o) && GetAlias(Invalid(o)) == Ok(None)
  {
  }

  /** Against a legacy version SemVer2 returns the negated cross-kind comparison. */
  lemma SemVer2AgainstLegacy(o: string, x: SemVer.SemVer, l: LegacyVersion.Legacy)
    ensures CompareTo(SemVer2(o, x), Some(Legacy(l))) == -LegacyAndSemVerCompare(Some(l), Some(x))
    ensures CompareTo(Legacy(l), Some(SemVer2(o, x))) == LegacyAndSemVerCompare(Some(l), Some(x))
    ensures CompareTo(SemVer2(o, x), Some(Invalid(o))) == -1
  {
  }

  /** A legacy version with a positive build is above the SemVer2 version with the same numbers. */
  lemma LegacyBuildAbove(l: LegacyVersion.Legacy, s: SemVer.SemVer)
    requires l.major == s.major && l.minor == s.minor && l.patch == s.patch && l.build > 0
    ensures LegacyAndSemVerCompare(Some(l), Some(s)) == 1
    ensures !LegacyAndSemVerEquals(l, s)
  {
  }

  /** A legacy version missing the minor or patch part is below the SemVer2 version. */
  lemma LegacyMissingPartBelow(l: LegacyVersion.Legacy, s: SemVer.SemVer)
    requires l.major == s.major && (l.minor < 0 || (l.minor == s.minor && l.patch < 0))
    ensures LegacyAndSemVerCompare(Some(l), Some(s)) == -1
  {
  }

  /** Cross-kind: with the same numbers and no positive build, the prereleases decide, ignoring case. */
  lemma CrossKindPrerelease(l: LegacyVersion.Legacy, s: SemVer.SemVer)
    requires l.major == s.major && l.minor == s.minor && l.patch == s.patch && l.build <= 0
    ensures LegacyAndSemVerCompare(Some(l), Some(s)) == CompareIC(l.prerelease.GetOr(""), s.prerelease.GetOr(""))
    ensures LegacyAndSemVerEquals(l, s) <==> LegacyAndSemVerCompare(Some(l), Some(s)) == 0
  {
  }

  /** `IsPrerelease` holds exactly when the prerelease is non-empty. */
  lemma IsPrereleaseMeans(v: PSVersion)
    ensures IsPrerelease(v) <==> Prerelease(v).Some? && Prerelease(v).value != ""
  {
  }

  /** The SemVer2 alias puts ".0" before the prerelease dash. */
  lemma SemVer2AliasInsertsBuild(o: string, x: SemVer.SemVer)
    requires x.prerelease.Some? && x.prerelease.value != ""
    ensures GetAlias(SemVer2(o, x)) == Ok(Some(NumbersOf(x) + ".0" + ("-" + x.prerelease.value)))
  {
    var n := NumbersOf(x);
    var tail := "-" + x.prerelease.value;
    var ver := SemVer.Text(x, false);
    TextWithPrerelease(x);
    NoDash(x);
    IndexOfCharAfter(n, tail, '-');
    assert ver[..|n|] == n && ver[|n|..] == tail;
  }

  function NumbersOf(x: SemVer.SemVer): string
  {
    NatToString(x.major) + "." + (NatToString(x.minor) + "." + NatToString(x.patch))
  }

  lemma TextWithPrerelease(x: SemVer.SemVer)
    requires x.prerelease.Some? && x.prerelease.value != ""
    ensures SemVer.Text(x, false) == NumbersOf(x) + ("-" + x.prerelease.value)
  {
    assert SemVer.SuffixText(x.prerelease.value, "") == "-" + x.prerelease.value;
  }

  lemma NoDash(x: SemVer.SemVer)
    ensures '-' !in NumbersOf(x)
  {
    DigitsNoDash(NatToString(x.major));
    DigitsNoDash(NatToString(x.minor));
    DigitsNoDash(NatToString(x.patch));
  }

  lemma DigitsNoDash(d: string)
    requires AllDigits(d)
    ensures '-' !in d
  {
  }

  lemma {:induction false} IndexOfCharAfter(x: string, y: string, c: char)
    requires c !in x && y != [] && y[0] == c
    ensures IndexOfChar(x + y, c) == |x|
  {
    var s := x + y;
    assert s[|x|] == c;
    assert forall j :: 0 <= j < |x| ==> s[j] == x[j];
  }

  /** Normalising a SemVer2 version keeps it equal to the original. */
  lemma NormalizedSemVer2Equal(o: string, x: SemVer.SemVer)
    ensures x.prerelease != Some("") ==> EqualsTo(ToNormalizedVersion(SemVer2(o, x)), Some(SemVer2(o, x)))
  {
    if x.prerelease.Some? {
      EqICIsEquivalence(x.prerelease.value, "", "");
    }
  }

  /** For SemVer2 text parsed without a final newline, the unique part is the "U" text. */
  lemma SemVer2UniquePart(x: SemVer.SemVer)
    requires SemVer.Valid(x)
    ensures var o := SemVer.Text(x, true);
      OriginalUniquePart(SemVer2(o, x)) == Ok(SemVer.Text(x, false))
  {
    var o := SemVer.Text(x, true);
    if x.build.Some? {
      var u := SemVer.Text(x, false);
      var pre := SemVer.SuffixText(x.prerelease.GetOr(""), "");
      var n := NatToString(x.major) + "." + (NatToString(x.minor) + "." + NatToString(x.patch));
      assert u == n + pre;
      assert o == (n + pre) + ("+" + x.build.value);
      assert o[..|o| - |x.build.value| - 1] == u;
    }
  }

  /** With a final newline after the build, the cut lands one character late and keeps the '+' ... */
  lemma SemVer2UniquePartNewline()
    ensures OriginalUniquePart(SemVer2("1.0.0+abc\n", SemVer.SemVer(1, 0, 0, None, Some("abc")))) == Ok("1.0.0+")
  {
    var o := "1.0.0+abc\n";
    assert |o| == 10 && |"abc"| == 3;
    assert o[..6] == "1.0.0+";
  }

  /** ... and that text does parse as SemVer2, final newline and all. */
  lemma NewlineTextParses()
    ensures SemVer.TryParse(Some("1.0.0+abc\n")) == Some(SemVer.SemVer(1, 0, 0, None, Some("abc")))
  {
    var g := SemVer.Groups("1", "0", "0", "", "abc");
    assert SemVer.Render(g) == "1.0.0+abc";
    SemVer.MatchOf(g);
    assert SemVer.Render(g) + "\n" == "1.0.0+abc\n";
    assert DigitsValue("1") == 1 && DigitsValue("0") == 0;
  }
}
