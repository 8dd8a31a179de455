/**
 * Shared vocabulary of the model: nullable values, results standing for
 * thrown exceptions, the .NET string operations the extension relies on
 * (trimming, ordinal and ordinal-ignore-case comparison, searching,
 * splitting, integer and boolean parsing) and association lists standing
 * for `Dictionary<string, V>` with or without `StringComparer.OrdinalIgnoreCase`.
 */
module Common {

  datatype Option<T> = None | Some(value: T)
  {
    function GetOr(default: T): T
    {
      if Some? then value else default
    }
  }

  /** `Err` stands for an exception the source throws; `error` names its kind. */
  datatype Result<T> = Ok(value: T) | Err(error: string)

  // ---------------------------------------------------------------------------
  // Characters

  /** The white-space set of `NumberStyles.AllowLeadingWhite`: U+0009..U+000D and U+0020. */
  predicate IsWhite(c: char)
  {
    c == ' ' || ('\t' <= c <= '\r')
  }

  predicate IsDigit(c: char)
  {
    '0' <= c <= '9'
  }

  predicate IsAsciiLetter(c: char)
  {
    ('a' <= c <= 'z') || ('A' <= c <= 'Z')
  }

  predicate IsHexDigit(c: char)
  {
    IsDigit(c) || ('a' <= c <= 'f') || ('A' <= c <= 'F')
  }

  /** `\w` restricted to ASCII: letters, digits and underscore. */
  predicate IsWordChar(c: char)
  {
    IsAsciiLetter(c) || IsDigit(c) || c == '_'
  }

  /** Ordinal-ignore-case folds characters to upper case. */
  function Upper(c: char): char
  {
    if 'a' <= c <= 'z' then (c as int - 32) as char else c
  }

  function UpperStr(s: string): (r: string)
    ensures |r| == |s|
    ensures forall i :: 0 <= i < |s| ==> r[i] == Upper(s[i])
  {
    seq(|s|, i requires 0 <= i < |s| => Upper(s[i]))
  }

  function Lower(c: char): char
  {
    if 'A' <= c <= 'Z' then (c as int + 32) as char else c
  }

  function LowerStr(s: string): (r: string)
    ensures |r| == |s|
    ensures forall i :: 0 <= i < |s| ==> r[i] == Lower(s[i])
  {
    seq(|s|, i requires 0 <= i < |s| => Lower(s[i]))
  }

  /** `string.Equals(a, b, StringComparison.OrdinalIgnoreCase)`. */
  predicate EqIC(a: string, b: string)
  {
    UpperStr(a) == UpperStr(b)
  }

  /** The same comparison between nullable strings: null equals only null. */
  predicate EqICOpt(a: Option<string>, b: Option<string>)
  {
    match (a, b)
    case (None, None) => true
    case (Some(x), Some(y)) => EqIC(x, y)
    case _ => false
  }

  lemma EqICIsEquivalence(a: string, b: string, c: string)
    ensures EqIC(a, a)
    ensures EqIC(a, b) ==> EqIC(b, a)
    ensures EqIC(a, b) && EqIC(b, c) ==> EqIC(a, c)
  {
  }

  // ---------------------------------------------------------------------------
  // Ordinal comparison, as a sign

  /** `CompareTo` of two integers, as a sign. */
  function CompareInt(a: int, b: int): (r: int)
    ensures r in {-1, 0, 1}
    ensures r == 0 <==> a == b
    ensures r < 0 <==> a < b
  {
    if a < b then -1 else if a > b then 1 else 0
  }

  /** `string.CompareOrdinal` reduced to its sign. */
  function CompareOrdinal(a: string, b: string): (r: int)
    ensures r in {-1, 0, 1}
    ensures r == 0 <==> a == b
    decreases |a|
  {
    if a == [] && b == [] then 0
    else if a == [] then -1
    else if b == [] then 1
    else if a[0] < b[0] then -1
    else if a[0] > b[0] then 1
    else
      var t := CompareOrdinal(a[1..], b[1..]);
      assert t == 0 ==> a == [a[0]] + a[1..] && b == [b[0]] + b[1..];
      t
  }

  lemma {:induction false} CompareOrdinalAntisymmetric(a: string, b: string)
    ensures CompareOrdinal(a, b) == -CompareOrdinal(b, a)
    decreases |a|
  {
    if a != [] && b != [] && a[0] == b[0] {
      CompareOrdinalAntisymmetric(a[1..], b[1..]);
    }
  }

  /** `string.Compare(a, b, StringComparison.OrdinalIgnoreCase)` reduced to its sign. */
  function CompareIC(a: string, b: string): (r: int)
    ensures r in {-1, 0, 1}
    ensures r == 0 <==> EqIC(a, b)
  {
    CompareOrdinal(UpperStr(a), UpperStr(b))
  }

  lemma CompareICAntisymmetric(a: string, b: string)
    ensures CompareIC(a, b) == -CompareIC(b, a)
  {
    CompareOrdinalAntisymmetric(UpperStr(a), UpperStr(b));
  }

  // ---------------------------------------------------------------------------
  // White space and trimming

  predicate IsBlank(s: string)
  {
    forall i :: 0 <= i < |s| ==> IsWhite(s[i])
  }

  /** `string.IsNullOrWhiteSpace`. */
  predicate IsNullOrWhiteSpace(s: Option<string>)
  {
    s.None? || IsBlank(s.value)
  }

  /** `string.IsNullOrEmpty`. */
  predicate IsNullOrEmpty(s: Option<string>)
  {
    s.None? || s.value == ""
  }

  function TrimStart(s: string): (r: string)
    ensures |r| <= |s| && r == s[|s| - |r|..]
    ensures r == [] || !IsWhite(r[0])
    ensures IsBlank(s[..|s| - |r|])
  {
    var k := Skip(s, 0, IsWhite);
    assert forall j :: 0 <= j < k ==> s[..k][j] == s[j];
    s[k..]
  }

  /** The start of the run of white space that ends at `e`. */
  function SkipBackWhite(s: string, e: nat): (r: nat)
    requires e <= |s|
    ensures r <= e && forall j :: r <= j < e ==> IsWhite(s[j])
    ensures r == 0 || !IsWhite(s[r - 1])
    decreases e
  {
    if e > 0 && IsWhite(s[e - 1]) then SkipBackWhite(s, e - 1) else e
  }

  function TrimEnd(s: string): (r: string)
    ensures |r| <= |s| && r == s[..|r|]
    ensures r == [] || !IsWhite(r[|r| - 1])
    ensures IsBlank(s[|r|..])
  {
    var k := SkipBackWhite(s, |s|);
    assert forall j :: 0 <= j < |s| - k ==> s[k..][j] == s[k + j];
    s[..k]
  }

  /** `string.Trim()`: white space removed at both ends, nothing else. */
  function Trim(s: string): (r: string)
    ensures |r| <= |s|
    ensures r == [] || (!IsWhite(r[0]) && !IsWhite(r[|r| - 1]))
  {
    TrimEnd(TrimStart(s))
  }

  lemma TrimEmptyIffBlank(s: string)
    ensures Trim(s) == [] <==> IsBlank(s)
  {
    var t := TrimStart(s);
    var k := |s| - |t|;
    if Trim(s) == [] {
      assert s[..k] == s;
    }
  }

  lemma {:induction false} TrimOfTrimmed(s: string)
    requires s == [] || (!IsWhite(s[0]) && !IsWhite(s[|s| - 1]))
    ensures Trim(s) == s
  {
    assert s[0..] == s && s[..|s|] == s;
  }

  lemma TrimIdempotent(s: string)
    ensures Trim(Trim(s)) == Trim(s)
  {
    TrimOfTrimmed(Trim(s));
  }

  // ---------------------------------------------------------------------------
  // Prefixes, suffixes and searching

  /** `s.StartsWith(p)`, compared code unit by code unit. */
  predicate StartsWith(s: string, p: string)
  {
    |p| <= |s| && s[..|p|] == p
  }

  lemma StartsWithFirst(s: string, p: string)
    requires StartsWith(s, p) && p != []
    ensures s != [] && s[0] == p[0]
  {
    assert s[..|p|][0] == p[0];
  }

  /** `s.EndsWith(p)`, compared code unit by code unit. */
  predicate EndsWith(s: string, p: string)
  {
    |p| <= |s| && s[|s| - |p|..] == p
  }

  /** `s.EndsWith(p, StringComparison.OrdinalIgnoreCase)`. */
  predicate EndsWithIC(s: string, p: string)
  {
    |p| <= |s| && EqIC(s[|s| - |p|..], p)
  }

  predicate OccursAt(s: string, p: string, i: int)
  {
    0 <= i && i + |p| <= |s| && s[i..i + |p|] == p
  }

  function IndexOfFrom(s: string, p: string, from: nat): (r: int)
    ensures r == -1 || (from <= r && OccursAt(s, p, r))
    ensures r == -1 ==> forall j :: from <= j ==> !OccursAt(s, p, j)
    ensures r >= 0 ==> forall j :: from <= j < r ==> !OccursAt(s, p, j)
    decreases |s| - from
  {
    if from + |p| > |s| then -1
    else if s[from..from + |p|] == p then from
    else IndexOfFrom(s, p, from + 1)
  }

  /** `s.IndexOf(p)`: the first occurrence, compared code unit by code unit, or -1. */
  function IndexOf(s: string, p: string): (r: int)
    ensures r == -1 || OccursAt(s, p, r)
    ensures r == -1 ==> forall j :: 0 <= j ==> !OccursAt(s, p, j)
    ensures r >= 0 ==> forall j :: 0 <= j < r ==> !OccursAt(s, p, j)
  {
    IndexOfFrom(s, p, 0)
  }

  predicate Contains(s: string, p: string)
  {
    IndexOf(s, p) >= 0
  }

  /** `s.IndexOf(c)` for a single character. */
  function IndexOfChar(s: string, c: char): (r: int)
    ensures -1 <= r < |s|
    ensures r >= 0 ==> s[r] == c && forall j :: 0 <= j < r ==> s[j] != c
    ensures r == -1 <==> c !in s
  {
    IndexOfCharFrom(s, c, 0)
  }

  /** The first `c` at or after `i`, or -1. */
  function IndexOfCharFrom(s: string, c: char, i: nat): (r: int)
    requires i <= |s|
    ensures -1 <= r < |s|
    ensures r >= 0 ==> i <= r && s[r] == c && forall j :: i <= j < r ==> s[j] != c
    ensures r == -1 ==> forall j :: i <= j < |s| ==> s[j] != c
    decreases |s| - i
  {
    if i == |s| then -1
    else if s[i] == c then i
    else IndexOfCharFrom(s, c, i + 1)
  }

  // ---------------------------------------------------------------------------
  // Joining and splitting

  function Join(sep: string, xs: seq<string>): string
  {
    if |xs| == 0 then ""
    else if |xs| == 1 then xs[0]
    else xs[0] + sep + Join(sep, xs[1..])
  }

  /** Concatenation without separator. */
  function Concat(xs: seq<string>): string
    decreases |xs|
  {
    if xs == [] then "" else Concat(xs[..|xs| - 1]) + xs[|xs| - 1]
  }

  /** `s.Split(c)`: the pieces between occurrences of `c`; never empty. */
  function Split(s: string, c: char): (r: seq<string>)
    ensures |r| >= 1
    ensures forall i :: 0 <= i < |r| ==> c !in r[i]
    decreases |s|
  {
    var k := IndexOfChar(s, c);
    if k < 0 then [s] else [s[..k]] + Split(s[k + 1..], c)
  }

  lemma {:induction false} JoinSplit(s: string, c: char)
    ensures Join([c], Split(s, c)) == s
    decreases |s|
  {
    var k := IndexOfChar(s, c);
    if k >= 0 {
      var rest := Split(s[k + 1..], c);
      var xs := [s[..k]] + rest;
      assert xs[0] == s[..k] && xs[1..] == rest;
      assert Join([c], xs) == s[..k] + [c] + Join([c], rest);
      JoinSplit(s[k + 1..], c);
      assert s == s[..k] + [c] + s[k + 1..];
    }
  }

  /**
   * `Environment.NewLine`, which `AppendLine` and `GetMerged` write. The model
   * fixes it to a line feed, as on a Linux host.
   */
  const NewLine: string := "\n"

  /** Text as a `StringBuilder.AppendLine` sequence writes it: every line followed by a newline. */
  function LinesText(lines: seq<string>): string
  {
    if lines == [] then "" else lines[0] + "\n" + LinesText(lines[1..])
  }

  lemma {:induction false} LinesTextAppend(lines: seq<string>, x: string)
    ensures LinesText(lines + [x]) == LinesText(lines) + x + NewLine
  {
    if lines != [] {
      assert (lines + [x])[1..] == lines[1..] + [x];
      LinesTextAppend(lines[1..], x);
    } else {
      assert [x][1..] == [];
    }
  }

  /** `Regex.Split(s, "\r?\n")`. */
  function SplitNewlines(s: string): (r: seq<string>)
    ensures |r| >= 1
  {
    var pieces := Split(s, '\n');
    seq(|pieces|, i requires 0 <= i < |pieces| =>
      if i < |pieces| - 1 && EndsWith(pieces[i], "\r") then pieces[i][..|pieces[i]| - 1] else pieces[i])
  }

  predicate IsPlainLine(x: string)
  {
    '\n' !in x && !EndsWith(x, "\r")
  }

  lemma {:induction false} SplitLinesText(lines: seq<string>)
    requires forall i :: 0 <= i < |lines| ==> '\n' !in lines[i]
    ensures Split(LinesText(lines), '\n') == lines + [""]
  {
    if lines != [] {
      var tail := lines[1..];
      assert LinesText(lines) == lines[0] + "\n" + LinesText(tail);
      SplitCons(lines[0], LinesText(tail));
      assert forall i :: 0 <= i < |tail| ==> tail[i] == lines[i + 1];
      SplitLinesText(tail);
      ConsTail(lines, [""]);
    }
  }

  /** Concatenation is associative. */
  lemma AppendAssoc<T>(a: seq<T>, b: seq<T>, c: seq<T>)
    ensures a + (b + c) == a + b + c
  {
  }

  /** Growing the prefix of `b` after `a` by one element appends that element. */
  lemma PrefixSnoc<T>(a: seq<T>, b: seq<T>, j: nat)
    requires j < |b|
    ensures a + b[..j + 1] == (a + b[..j]) + [b[j]]
  {
    assert b[..j + 1] == b[..j] + [b[j]];
  }

  lemma ConsTail<T>(s: seq<T>, x: seq<T>)
    requires s != []
    ensures [s[0]] + (s[1..] + x) == s + x
  {
    assert s == [s[0]] + s[1..];
  }

  lemma SplitCons(x: string, rest: string)
    requires '\n' !in x
    ensures Split(x + "\n" + rest, '\n') == [x] + Split(rest, '\n')
  {
    var s := x + "\n" + rest;
    assert s[|x|] == '\n';
    assert forall j :: 0 <= j < |x| ==> s[j] == x[j];
    assert IndexOfChar(s, '\n') == |x|;
    assert s[..|x|] == x;
    assert s[|x| + 1..] == rest;
  }

  /** Splitting what `AppendLine` wrote gives back the lines, followed by one empty piece. */
  lemma SplitNewlinesLinesText(lines: seq<string>)
    requires forall i :: 0 <= i < |lines| ==> IsPlainLine(lines[i])
    ensures SplitNewlines(LinesText(lines)) == lines + [""]
  {
    SplitLinesText(lines);
  }

  // ---------------------------------------------------------------------------
  // Decimal digits and integer parsing

  predicate AllDigits(s: string)
  {
    forall i :: 0 <= i < |s| ==> IsDigit(s[i])
  }

  function DigitsValue(s: string): nat
    requires AllDigits(s)
  {
    if s == [] then 0 else DigitsValue(s[..|s| - 1]) * 10 + (s[|s| - 1] as int - '0' as int)
  }

  function DigitChar(d: nat): (c: char)
    requires d < 10
    ensures IsDigit(c) && c as int - '0' as int == d
  {
    ('0' as int + d) as char
  }

  /** `n.ToString()` for a non-negative integer. */
  function NatToString(n: nat): (r: string)
    ensures |r| > 0 && AllDigits(r)
  {
    if n < 10 then [DigitChar(n)] else NatToString(n / 10) + [DigitChar(n % 10)]
  }

  lemma {:induction false} NatToStringValue(n: nat)
    ensures DigitsValue(NatToString(n)) == n
  {
    if n >= 10 {
      NatToStringValue(n / 10);
      var s := NatToString(n);
      assert s[..|s| - 1] == NatToString(n / 10);
    }
  }

  /** `n.ToString()` for any integer. */
  function IntToString(n: int): string
  {
    if n < 0 then "-" + NatToString(-n) else NatToString(n)
  }

  /** The value of `[+|-]digits`, nothing around it. */
  function ParseSignedDigits(t: string): (r: Option<int>)
    ensures r.Some? ==> t != []
  {
    var neg := t != [] && t[0] == '-';
    var body := if t != [] && (t[0] == '-' || t[0] == '+') then t[1..] else t;
    if body == [] || !AllDigits(body) then None
    else
      var v: int := DigitsValue(body);
      if neg then Some(-v) else Some(v)
  }

  /**
   * The value of `[+|-]digits` with white space around it, as
   * `NumberStyles.Integer` reads it, without a range check.
   */
  function ParseInteger(s: string): (r: Option<int>)
  {
    ParseSignedDigits(Trim(s))
  }

  /** `TryParse` of an integral type whose values are the range `lo..hi`. */
  function TryParseInRange(s: string, lo: int, hi: int): (r: Option<int>)
    ensures r.Some? ==> lo <= r.value <= hi
  {
    var v := ParseInteger(s);
    if v.Some? && lo <= v.value <= hi then v else None
  }

  const Int32Min: int := -0x8000_0000
  const Int32Max: int := 0x7FFF_FFFF

  /** `int.TryParse(s, out _)`. */
  function TryParseInt32(s: string): (r: Option<int>)
    ensures r.Some? ==> Int32Min <= r.value <= Int32Max
  {
    TryParseInRange(s, Int32Min, Int32Max)
  }

  lemma SignedDigitsOfDigits(d: string)
    requires |d| > 0 && AllDigits(d)
    ensures ParseSignedDigits(d) == Some(DigitsValue(d))
    ensures ParseSignedDigits("-" + d) == Some(-(DigitsValue(d) as int))
  {
    assert d[0] != '-' && d[0] != '+';
    assert ("-" + d)[1..] == d;
  }

  lemma ParseIntegerNatToString(m: nat)
    ensures ParseInteger(NatToString(m)) == Some(m)
  {
    var d := NatToString(m);
    NatToStringValue(m);
    assert IsDigit(d[0]) && IsDigit(d[|d| - 1]);
    TrimOfTrimmed(d);
    SignedDigitsOfDigits(d);
  }

  lemma ParseIntegerNegated(n: int)
    requires n < 0
    ensures ParseInteger("-" + NatToString(-n)) == Some(n)
  {
    var m: nat := -n;
    var d := NatToString(m);
    var s := "-" + d;
    NatToStringValue(m);
    assert s[|s| - 1] == d[|d| - 1] && IsDigit(d[|d| - 1]);
    TrimOfTrimmed(s);
    assert ParseInteger(s) == ParseSignedDigits(s);
    SignedDigitsOfDigits(d);
  }

  /** Integer parsing reads back what `ToString` writes. */
  lemma ParseIntegerIntToString(n: int)
    ensures ParseInteger(IntToString(n)) == Some(n)
  {
    if n < 0 {
      ParseIntegerNegated(n);
    } else {
      ParseIntegerNatToString(n);
    }
  }

  lemma TryParseInt32IntToString(n: int)
    requires Int32Min <= n <= Int32Max
    ensures TryParseInt32(IntToString(n)) == Some(n)
  {
    ParseIntegerIntToString(n);
  }

  /** `bool.TryParse`: "true" or "false" in any case, white space around ignored; null fails. */
  function TryParseBool(s: Option<string>): (r: Option<bool>)
    ensures r == Some(true) <==> s.Some? && EqIC(Trim(s.value), "true")
    ensures r == Some(false) <==> s.Some? && EqIC(Trim(s.value), "false")
  {
    if s.None? then None
    else if EqIC(Trim(s.value), "true") then Some(true)
    else if EqIC(Trim(s.value), "false") then Some(false)
    else None
  }

  /** `AH.CoalesceString(a, b)`: `a` unless it is null or empty. */
  function CoalesceString(a: Option<string>, b: Option<string>): (r: Option<string>)
    ensures !IsNullOrEmpty(a) ==> r == a
    ensures IsNullOrEmpty(a) ==> r == b
  {
    if IsNullOrEmpty(a) then b else a
  }

  /** `AH.NullIf(s, "")`. */
  function NullIfEmpty(s: string): (r: Option<string>)
    ensures r.None? <==> s == ""
    ensures r.Some? ==> r.value == s
  {
    if s == "" then None else Some(s)
  }

  // ---------------------------------------------------------------------------
  // Dictionaries as association lists with distinct keys

  predicate KeyEq(ic: bool, a: string, b: string)
  {
    if ic then EqIC(a, b) else a == b
  }

  /** Position of the entry whose key matches `k`, or -1. */
  function FindKey<V>(ic: bool, d: seq<(string, V)>, k: string): (r: int)
    ensures -1 <= r < |d|
    ensures r >= 0 ==> KeyEq(ic, d[r].0, k)
    ensures r >= 0 ==> forall j :: 0 <= j < r ==> !KeyEq(ic, d[j].0, k)
    ensures r == -1 <==> forall j :: 0 <= j < |d| ==> !KeyEq(ic, d[j].0, k)
  {
    if d == [] then -1
    else if KeyEq(ic, d[0].0, k) then 0
    else
      var t := FindKey(ic, d[1..], k);
      if t == -1 then -1 else t + 1
  }

  predicate HasKey<V>(ic: bool, d: seq<(string, V)>, k: string)
  {
    FindKey(ic, d, k) >= 0
  }

  /** `TryGetValue`. */
  function Get<V>(ic: bool, d: seq<(string, V)>, k: string): (r: Option<V>)
    ensures r.Some? <==> HasKey(ic, d, k)
  {
    var i := FindKey(ic, d, k);
    if i < 0 then None else Some(d[i].1)
  }

  /** The indexer's setter: overwrites a matching entry in place, keeping its key, or appends. */
  function Set<V>(ic: bool, d: seq<(string, V)>, k: string, v: V): (r: seq<(string, V)>)
  {
    var i := FindKey(ic, d, k);
    if i < 0 then d + [(k, v)] else d[i := (d[i].0, v)]
  }

  /** `Dictionary.Add`: throws `ArgumentException` when the key is already there. */
  function Add<V>(ic: bool, d: seq<(string, V)>, k: string, v: V): (r: Result<seq<(string, V)>>)
    ensures r.Err? <==> HasKey(ic, d, k)
    ensures r.Ok? ==> r.value == d + [(k, v)]
  {
    if HasKey(ic, d, k) then Err("ArgumentException") else Ok(d + [(k, v)])
  }

  /** `Dictionary.Remove`. */
  function Remove<V>(ic: bool, d: seq<(string, V)>, k: string): (r: seq<(string, V)>)
    ensures |r| <= |d|
  {
    var i := FindKey(ic, d, k);
    if i < 0 then d else d[..i] + d[i + 1..]
  }

  function Keys<V>(d: seq<(string, V)>): (r: seq<string>)
    ensures |r| == |d|
    ensures forall i :: 0 <= i < |d| ==> r[i] == d[i].0
  {
    seq(|d|, i requires 0 <= i < |d| => d[i].0)
  }

  lemma {:induction false} FindKeyAppend<V>(ic: bool, d: seq<(string, V)>, k: string, e: (string, V))
    ensures FindKey(ic, d + [e], k) ==
      (if FindKey(ic, d, k) >= 0 then FindKey(ic, d, k) else if KeyEq(ic, e.0, k) then |d| else -1)
  {
    if d != [] {
      FindKeyAppend(ic, d[1..], k, e);
      assert (d + [e])[1..] == d[1..] + [e];
    }
  }

  /** Reading a key just written yields the written value; other keys are untouched. */
  lemma GetSet<V>(ic: bool, d: seq<(string, V)>, k: string, v: V, k2: string)
    ensures Get(ic, Set(ic, d, k, v), k) == Some(v)
    ensures !KeyEq(ic, k, k2) ==> Get(ic, Set(ic, d, k, v), k2) == Get(ic, d, k2)
  {
    var i := FindKey(ic, d, k);
    if i < 0 {
      FindKeyAppend(ic, d, k, (k, v));
      FindKeyAppend(ic, d, k2, (k, v));
      assert KeyEq(ic, k, k);
      if !KeyEq(ic, k, k2) {
        assert !KeyEq(ic, k2, k) ==> !KeyEq(ic, k, k2);
        if ic { EqICIsEquivalence(k, k2, k); }
      }
    } else {
      var r := d[i := (d[i].0, v)];
      assert forall j :: 0 <= j < |d| ==> r[j].0 == d[j].0;
      assert FindKey(ic, r, k) == FindKey(ic, d, k) by { KeysEqualFind(ic, d, r, k); }
      KeysEqualFind(ic, d, r, k2);
      if !KeyEq(ic, k, k2) && FindKey(ic, d, k2) == i {
        if ic { EqICIsEquivalence(d[i].0, k, k2); EqICIsEquivalence(k, d[i].0, k2); }
        assert false;
      }
    }
  }

  lemma {:induction false} KeysEqualFind<V>(ic: bool, d: seq<(string, V)>, r: seq<(string, V)>, k: string)
    requires |d| == |r| && forall j :: 0 <= j < |d| ==> r[j].0 == d[j].0
    ensures FindKey(ic, r, k) == FindKey(ic, d, k)
  {
    if d != [] {
      KeysEqualFind(ic, d[1..], r[1..], k);
    }
  }

  /** Keys that match each other find the same entry. */
  lemma {:induction false} FindKeyEq<V>(ic: bool, d: seq<(string, V)>, a: string, b: string)
    requires KeyEq(ic, a, b)
    ensures FindKey(ic, d, a) == FindKey(ic, d, b)
  {
    if d != [] {
      if ic {
        EqICIsEquivalence(d[0].0, a, b);
        EqICIsEquivalence(d[0].0, b, a);
        EqICIsEquivalence(a, b, a);
      }
      FindKeyEq(ic, d[1..], a, b);
    }
  }

  /** The indexer's setter applied to each entry of `es` in turn. */
  function SetAll<V>(ic: bool, d: seq<(string, V)>, es: seq<(string, V)>): seq<(string, V)>
  {
    if es == [] then d
    else
      var last := es[|es| - 1];
      Set(ic, SetAll(ic, d, es[..|es| - 1]), last.0, last.1)
  }

  /** The value of the last entry of `es` whose key matches `k`. */
  function LastMatch<V>(ic: bool, es: seq<(string, V)>, k: string): Option<V>
  {
    if es == [] then None
    else if KeyEq(ic, es[|es| - 1].0, k) then Some(es[|es| - 1].1)
    else LastMatch(ic, es[..|es| - 1], k)
  }

  /** `LastMatch` finds a value exactly when some entry matches, and the value is that of a matching entry. */
  lemma {:induction false} LastMatchFound<V>(ic: bool, es: seq<(string, V)>, k: string)
    ensures LastMatch(ic, es, k).Some? <==> exists j :: 0 <= j < |es| && KeyEq(ic, es[j].0, k)
    ensures LastMatch(ic, es, k).Some? ==>
      exists j :: 0 <= j < |es| && KeyEq(ic, es[j].0, k) && es[j].1 == LastMatch(ic, es, k).value
  {
    if es != [] && !KeyEq(ic, es[|es| - 1].0, k) {
      var init := es[..|es| - 1];
      LastMatchFound(ic, init, k);
      assert forall j :: 0 <= j < |init| ==> init[j] == es[j];
    }
  }

  lemma SetAllSnoc<V>(ic: bool, d: seq<(string, V)>, es: seq<(string, V)>, e: (string, V))
    ensures SetAll(ic, d, es + [e]) == Set(ic, SetAll(ic, d, es), e.0, e.1)
  {
    assert (es + [e])[..|es|] == es;
  }

  lemma LastMatchSnoc<V>(ic: bool, es: seq<(string, V)>, e: (string, V), k: string)
    ensures LastMatch(ic, es + [e], k) == if KeyEq(ic, e.0, k) then Some(e.1) else LastMatch(ic, es, k)
  {
    assert (es + [e])[..|es|] == es;
  }

  /** After setting every entry in turn, a key reads as the last entry written to it, or as before when none was. */
  lemma {:induction false} SetAllReads<V>(ic: bool, d: seq<(string, V)>, es: seq<(string, V)>, k: string)
    ensures Get(ic, SetAll(ic, d, es), k) == if LastMatch(ic, es, k).Some? then LastMatch(ic, es, k) else Get(ic, d, k)
  {
    if es != [] {
      var last := es[|es| - 1];
      var prev := SetAll(ic, d, es[..|es| - 1]);
      SetAllReads(ic, d, es[..|es| - 1], k);
      GetSet(ic, prev, last.0, last.1, k);
      if KeyEq(ic, last.0, k) {
        FindKeyEq(ic, Set(ic, prev, last.0, last.1), last.0, k);
      }
    }
  }

  /** No two entries' keys match under the comparer: what a dictionary filled by `Add` keeps. */
  predicate UniqueKeys<V>(ic: bool, d: seq<(string, V)>)
  {
    forall a, b :: 0 <= a < b < |d| ==> !KeyEq(ic, d[a].0, d[b].0)
  }

  /** Appending keeps the keys unique exactly when the new key is not there yet. */
  lemma UniqueKeysSnoc<V>(ic: bool, d: seq<(string, V)>, e: (string, V))
    ensures UniqueKeys(ic, d + [e]) <==> UniqueKeys(ic, d) && !HasKey(ic, d, e.0)
  {
    var x := d + [e];
    assert forall j :: 0 <= j < |d| ==> x[j] == d[j];
    if HasKey(ic, d, e.0) {
      var j := FindKey(ic, d, e.0);
      assert KeyEq(ic, x[j].0, x[|d|].0);
    }
  }

  /** A prefix of a dictionary with unique keys has unique keys. */
  lemma UniqueKeysPrefix<V>(ic: bool, x: seq<(string, V)>, y: seq<(string, V)>)
    ensures UniqueKeys(ic, x + y) ==> UniqueKeys(ic, x)
  {
    assert forall j :: 0 <= j < |x| ==> (x + y)[j] == x[j];
  }

  /** Appending entries never hides a key that was already there. */
  lemma HasKeyPrefix<V>(ic: bool, d: seq<(string, V)>, x: seq<(string, V)>, k: string)
    ensures HasKey(ic, d, k) ==> HasKey(ic, d + x, k)
  {
    if HasKey(ic, d, k) {
      var j := FindKey(ic, d, k);
      assert (d + x)[j] == d[j];
    }
  }

  /** A dictionary only grows by appending: what it already finds it still finds, and it finds the new key. */
  lemma HasKeyExtend<V>(ic: bool, d: seq<(string, V)>, e: (string, V), k: string)
    ensures HasKey(ic, d + [e], k) <==> HasKey(ic, d, k) || KeyEq(ic, e.0, k)
  {
    FindKeyAppend(ic, d, k, e);
  }

  /** Setting a key keeps the keys unique. */
  lemma SetKeepsUnique<V>(ic: bool, d: seq<(string, V)>, k: string, v: V)
    requires UniqueKeys(ic, d)
    ensures UniqueKeys(ic, Set(ic, d, k, v))
  {
    var i := FindKey(ic, d, k);
    if i >= 0 {
      var r := d[i := (d[i].0, v)];
      assert forall j :: 0 <= j < |d| ==> r[j].0 == d[j].0;
    }
  }

  /** Entry `j` of `d` without entry `i` is entry `j` or `j + 1` of `d`. */
  lemma WithoutEntry<V>(d: seq<(string, V)>, i: nat, j: nat)
    requires i < |d| && j < |d| - 1
    ensures (d[..i] + d[i + 1..])[j] == d[if j < i then j else j + 1]
  {
  }

  /** Removing an entry keeps the other keys unique. */
  lemma RemoveKeepsUnique<V>(d: seq<(string, V)>, k: string)
    requires UniqueKeys(false, d)
    ensures UniqueKeys(false, Remove(false, d, k))
  {
    var i := FindKey(false, d, k);
    if i >= 0 {
      var r := d[..i] + d[i + 1..];
      forall a, b | 0 <= a < b < |r| ensures !KeyEq(false, r[a].0, r[b].0) {
        WithoutEntry(d, i, a);
        WithoutEntry(d, i, b);
      }
    }
  }

  /** With unique ordinal keys, removing a key leaves no entry under it. */
  lemma RemoveDrops<V>(d: seq<(string, V)>, k: string)
    requires UniqueKeys(false, d)
    ensures !HasKey(false, Remove(false, d, k), k)
  {
    var i := FindKey(false, d, k);
    if i >= 0 {
      var r := d[..i] + d[i + 1..];
      if HasKey(false, r, k) {
        var j := FindKey(false, r, k);
        WithoutEntry(d, i, j);
      }
    }
  }

  /** Removing a key leaves every other key reading as before. */
  lemma RemoveKeepsOthers<V>(d: seq<(string, V)>, k: string, k2: string)
    requires k2 != k
    ensures Get(false, Remove(false, d, k), k2) == Get(false, d, k2)
  {
    var i := FindKey(false, d, k);
    if i >= 0 {
      var r := d[..i] + d[i + 1..];
      var m := FindKey(false, d, k2);
      forall j | 0 <= j < |r| && (m < 0 || j < (if m < i then m else m - 1)) ensures !KeyEq(false, r[j].0, k2) {
        WithoutEntry(d, i, j);
      }
      if m >= 0 {
        var m' := if m < i then m else m - 1;
        WithoutEntry(d, i, m');
        assert FindKey(false, r, k2) == m';
      }
    }
  }

  // ---------------------------------------------------------------------------
  // Case-insensitive string sets

  /** Whether `x` is already in `xs`, ignoring case. */
  predicate ContainsIC(xs: seq<string>, x: string)
  {
    exists j :: 0 <= j < |xs| && EqIC(xs[j], x)
  }

  lemma ContainsICAppend(xs: seq<string>, ys: seq<string>)
    ensures forall x :: ContainsIC(xs, x) ==> ContainsIC(xs + ys, x)
  {
    forall x | ContainsIC(xs, x) ensures ContainsIC(xs + ys, x) {
      var j :| 0 <= j < |xs| && EqIC(xs[j], x);
      assert (xs + ys)[j] == xs[j];
    }
  }

  /** `HashSet<string>(StringComparer.OrdinalIgnoreCase).Add`. */
  function AddIC(xs: seq<string>, x: string): seq<string>
  {
    if ContainsIC(xs, x) then xs else xs + [x]
  }

  /** Adding `ys` in order. */
  function AddAllIC(xs: seq<string>, ys: seq<string>): seq<string>
    decreases |ys|
  {
    if ys == [] then xs else AddIC(AddAllIC(xs, ys[..|ys| - 1]), ys[|ys| - 1])
  }

  lemma AddAllICSnoc(xs: seq<string>, ys: seq<string>, y: string)
    ensures AddAllIC(xs, ys + [y]) == AddIC(AddAllIC(xs, ys), y)
  {
    assert (ys + [y])[..|ys|] == ys;
  }

  /** No two names are equal ignoring case: what a case-insensitive set holds. */
  predicate DistinctIC(xs: seq<string>)
  {
    forall a, b :: 0 <= a < b < |xs| ==> !EqIC(xs[a], xs[b])
  }

  /** What adding a list keeps: the names already there, every added name up to case, and nothing else. */
  lemma {:induction false} AddAllICFacts(xs: seq<string>, ys: seq<string>)
    requires DistinctIC(xs)
    ensures DistinctIC(AddAllIC(xs, ys))
    ensures forall x :: x in xs ==> x in AddAllIC(xs, ys)
    ensures forall y :: y in ys ==> ContainsIC(AddAllIC(xs, ys), y)
    ensures forall z :: z in AddAllIC(xs, ys) ==> z in xs || z in ys
    decreases |ys|
  {
    if ys != [] {
      var init := ys[..|ys| - 1];
      var y := ys[|ys| - 1];
      AddAllICFacts(xs, init);
      var a := AddAllIC(xs, init);
      assert forall x :: x in init ==> x in ys;
      if !ContainsIC(a, y) {
        var r := a + [y];
        assert EqIC(r[|a|], y);
        forall p, q | 0 <= p < q < |r| ensures !EqIC(r[p], r[q]) {
          if q == |a| {
            assert !EqIC(a[p], y);
          }
        }
      }
      forall w | w in ys ensures ContainsIC(AddAllIC(xs, ys), w) {
        if w != y {
          assert w in init;
          var j :| 0 <= j < |a| && EqIC(a[j], w);
          assert AddAllIC(xs, ys)[j] == a[j];
        } else if ContainsIC(a, y) {
        } else {
          assert AddAllIC(xs, ys)[|a|] == y;
        }
      }
    }
  }

  // ---------------------------------------------------------------------------
  // Scanning character runs

  /** The end of the run of elements satisfying `f` that starts at `i`. */
  function Skip<T>(s: seq<T>, i: nat, f: T -> bool): (r: nat)
    requires i <= |s|
    ensures i <= r <= |s|
    ensures forall j :: i <= j < r ==> f(s[j])
    ensures r == |s| || !f(s[r])
    decreases |s| - i
  {
    if i < |s| && f(s[i]) then Skip(s, i + 1, f) else i
  }

  lemma {:induction false} SkipTo<T>(s: seq<T>, i: nat, n: nat, f: T -> bool)
    requires i <= n <= |s|
    requires forall j :: i <= j < n ==> f(s[j])
    requires n == |s| || !f(s[n])
    ensures Skip(s, i, f) == n
    decreases n - i
  {
    if i < n {
      SkipTo(s, i + 1, n, f);
    }
  }

  /** A run that covers `[i, n)` goes on as the run from `n`. */
  lemma {:induction false} SkipFrom<T>(s: seq<T>, i: nat, n: nat, f: T -> bool)
    requires i <= n <= |s|
    requires forall j :: i <= j < n ==> f(s[j])
    ensures Skip(s, i, f) == Skip(s, n, f)
    decreases n - i
  {
    if i < n {
      SkipFrom(s, i + 1, n, f);
    }
  }

  lemma SliceAll<T>(s: seq<T>, a: nat, b: nat, f: T -> bool)
    requires a <= b <= |s|
    requires forall j :: a <= j < b ==> f(s[j])
    ensures forall x :: 0 <= x < |s[a..b]| ==> f(s[a..b][x])
  {
    assert forall x :: 0 <= x < b - a ==> s[a..b][x] == s[a + x];
  }

  lemma FiveSlices(s: string, i: nat, j: nat, k: nat, l: nat)
    requires i <= j <= k <= l <= |s|
    ensures s == s[..i] + s[i..j] + s[j..k] + s[k..l] + s[l..]
  {
    assert s[..j] == s[..i] + s[i..j];
    assert s[..k] == s[..j] + s[j..k];
    assert s[..l] == s[..k] + s[k..l];
    assert s == s[..l] + s[l..];
  }

  lemma PieceAll(s: string, a: nat, b: nat, piece: string, f: char -> bool)
    requires a <= b <= |s| && s[a..b] == piece
    requires forall x :: 0 <= x < |piece| ==> f(piece[x])
    ensures forall j :: a <= j < b ==> f(s[j])
  {
    assert forall j :: a <= j < b ==> s[j] == piece[j - a];
  }

  /** A run that fills the rest of `x` stops where `y` begins. */
  lemma SkipOver<T>(x: seq<T>, y: seq<T>, i: nat, f: T -> bool)
    requires i <= |x|
    requires forall j :: i <= j < |x| ==> f(x[j])
    requires y == [] || !f(y[0])
    ensures Skip(x + y, i, f) == |x|
  {
    var s := x + y;
    assert forall j :: i <= j < |x| ==> s[j] == x[j];
    assert |x| < |s| ==> s[|x|] == y[0];
    SkipTo(s, i, |x|, f);
  }

  /** The pieces of a block: an opening element, a body, a closing element and the rest. */
  lemma BlockSlices<T>(open: T, body: seq<T>, close: T, rest: seq<T>)
    ensures var s := [open] + body + [close] + rest;
      s[0] == open && s[|body| + 1] == close && s[1..|body| + 1] == body &&
      forall j :: 1 <= j < |body| + 1 ==> s[j] == body[j - 1]
  {
  }

  /** A run in `rest` is the same run in `pre + rest`, moved by `|pre|`. */
  lemma {:induction false} SkipShift<T>(pre: seq<T>, rest: seq<T>, i: nat, f: T -> bool)
    requires i <= |rest|
    ensures Skip(pre + rest, |pre| + i, f) == |pre| + Skip(rest, i, f)
    decreases |rest| - i
  {
    var s := pre + rest;
    if i < |rest| {
      assert s[|pre| + i] == rest[i];
      SkipShift(pre, rest, i + 1, f);
    }
  }

  /** `SkipShift` from the element after `k`, which is the one after `j` in `pre + rest`. */
  lemma SkipShiftNext<T>(pre: seq<T>, rest: seq<T>, k: nat, j: nat, f: T -> bool)
    requires k < |rest| && j == |pre| + k
    ensures Skip(pre + rest, j + 1, f) == |pre| + Skip(rest, k + 1, f)
  {
    SkipShift(pre, rest, k + 1, f);
  }
}
