/**
 * The Python header: after any "#" lines, a docstring opened by three
 * double or three single quotes and closed by the first later line that
 * holds the same three characters. Escape sequences in the docstring are
 * decoded as Python would. Section titles are unindented `word:` lines with
 * nothing after the colon.
 */
module PythonScriptParser {
  import opened Common
  import opened ScriptParser
  import WindowsBatchScriptParser

  // ---------------------------------------------------------------------------
  // Escape sequences

  /**
   * One match of the escape pattern `\\([\\'"abfnrt]|N\{[^\}]*}|u[0-9a-fA-F]{4}|U[0-9a-fA-F]{8}|[0-7]{3}|x[0-9a-fA-F]{2})`.
   * `Named` keeps the braces; the numeric forms carry their digits' value
   * (octal keeps its three digits).
   */
  datatype EscapeToken =
    | Simple(c: char)
    | Named(body: string)
    | Short(code: nat)
    | Long(code: nat)
    | Octal(digits: string)
    | Byte(code: nat)

  function HexValue(c: char): (r: nat)
    requires IsHexDigit(c)
    ensures r < 16
  {
    if IsDigit(c) then c as int - '0' as int
    else if 'a' <= c <= 'f' then c as int - 'a' as int + 10
    else c as int - 'A' as int + 10
  }

  predicate AllHex(s: string)
  {
    forall i :: 0 <= i < |s| ==> IsHexDigit(s[i])
  }

  /** The value of a run of hexadecimal digits, most significant first. */
  function HexNumber(s: string): (r: nat)
    requires AllHex(s)
    ensures r < Pow16(|s|)
    decreases |s|
  {
    if s == [] then 0 else HexNumber(s[..|s| - 1]) * 16 + HexValue(s[|s| - 1])
  }

  function Pow16(n: nat): (r: nat)
    ensures r >= 1
  {
    if n == 0 then 1 else 16 * Pow16(n - 1)
  }

  predicate IsOctalDigit(c: char)
  {
    '0' <= c <= '7'
  }

  /** The characters that may follow a backslash on their own. */
  predicate IsSimpleEscape(c: char)
  {
    c in "\\'\"abfnrt"
  }

  /** The escape that starts at `i`, if any, with the length of the whole match. */
  function MatchEscape(s: string, i: nat): (r: Option<(EscapeToken, nat)>)
    requires i < |s|
    ensures r.Some? ==> 2 <= r.value.1 && i + r.value.1 <= |s| && s[i] == '\\'
  {
    if s[i] != '\\' || i + 1 == |s| then None
    else
      var c := s[i + 1];
      if IsSimpleEscape(c) then Some((Simple(c), 2))
      else if c == 'N' then
        if i + 2 < |s| && s[i + 2] == '{' then
          var close := IndexOfCharFrom(s, '}', i + 3);
          if close >= 0 then Some((Named(s[i + 2..close + 1]), close + 1 - i)) else None
        else None
      else if c == 'u' then
        if i + 6 <= |s| && AllHex(s[i + 2..i + 6]) then Some((Short(HexNumber(s[i + 2..i + 6])), 6)) else None
      else if c == 'U' then
        if i + 10 <= |s| && AllHex(s[i + 2..i + 10]) then Some((Long(HexNumber(s[i + 2..i + 10])), 10)) else None
      else if IsOctalDigit(c) then
        if i + 4 <= |s| && IsOctalDigit(s[i + 2]) && IsOctalDigit(s[i + 3]) then Some((Octal(s[i + 1..i + 4]), 4)) else None
      else if c == 'x' then
        if i + 4 <= |s| && AllHex(s[i + 2..i + 4]) then Some((Byte(HexNumber(s[i + 2..i + 4])), 4)) else None
      else None
  }

  /** The single-character escapes: a, b, f, n, r, t name control characters; any other stands for itself. */
  function SimpleChar(c: char): (r: char)
    ensures c == 'a' ==> r == '\U{7}'
    ensures c == 'b' ==> r == '\U{8}'
    ensures c == 'f' ==> r == '\U{C}'
    ensures c == 'n' ==> r == '\n'
    ensures c == 'r' ==> r == '\r'
    ensures c == 't' ==> r == '\t'
    ensures c !in "abfnrt" ==> r == c
  {
    match c
    case 'a' => '\U{7}'
    case 'b' => '\U{8}'
    case 'f' => '\U{C}'
    case 'n' => '\n'
    case 'r' => '\r'
    case 't' => '\t'
    case _ => c
  }

  predicate IsSurrogate(v: nat)
  {
    0xD800 <= v <= 0xDFFF
  }

  /**
   * The replacement the match evaluator computes, with the octal digits read
   * at positions 0, 1 and 2. `char.ConvertFromUtf32` throws on a value that
   * is not a Unicode scalar value.
   */
  function Replacement(t: EscapeToken): (r: Result<string>)
    ensures r.Err? <==> t.Long? && (t.code > 0x10FFFF || IsSurrogate(t.code))
    ensures t.Simple? ==> r == Ok([SimpleChar(t.c)])
    ensures t.Named? ==> r == Ok(t.body)
    ensures t.Byte? && t.code < 256 ==> r == Ok([t.code as char])
  {
    match t
    case Simple(c) => Ok([SimpleChar(c)])
    case Named(body) => Ok(body)
    case Short(v) => if v > 0xFFFF || IsSurrogate(v) then Ok(['\U{FFFD}']) else Ok([v as char])
    case Long(v) => if v > 0x10FFFF || IsSurrogate(v) then Err("ArgumentOutOfRangeException") else Ok([v as char])
    case Octal(d) => Ok([OctalChar(d)])
    case Byte(v) => if v > 0xFF then Ok(['\U{FFFD}']) else Ok([v as char])
  }

  /** Three octal digits as the character they number (at most 0o777). */
  function OctalChar(d: string): (r: char)
    ensures |d| == 3 && IsOctalDigit(d[0]) && IsOctalDigit(d[1]) && IsOctalDigit(d[2]) ==>
      r as int == (d[0] as int - '0' as int) * 64 + (d[1] as int - '0' as int) * 8 + (d[2] as int - '0' as int)
  {
    if |d| == 3 && IsOctalDigit(d[0]) && IsOctalDigit(d[1]) && IsOctalDigit(d[2]) then
      ((d[0] as int - '0' as int) * 64 + (d[1] as int - '0' as int) * 8 + (d[2] as int - '0' as int)) as char
    else '\U{FFFD}'
  }

  /**
   * The match evaluator as written: the octal branch reads `v[1]`, `v[2]`
   * and `v[3]` of the three-digit group, and `v[3]` is past its end. The
   * `\u` and `\U` branches turn the hexadecimal text into bytes in text
   * order and hand them to `BitConverter`, which reads them least
   * significant first, so the code point comes out byte-reversed.
   */
  function ReplacementAsWritten(t: EscapeToken): (r: Result<string>)
    ensures t.Octal? ==> r == Err("IndexOutOfRangeException")
    ensures t.Short? ==> r == Replacement(Short(Swap16(t.code)))
    ensures t.Long? ==> r == Replacement(Long(Swap32(t.code)))
    ensures t.Simple? || t.Named? || t.Byte? ==> r == Replacement(t)
  {
    match t
    case Octal(_) => Err("IndexOutOfRangeException")
    case Short(v) => Replacement(Short(Swap16(v)))
    case Long(v) => Replacement(Long(Swap32(v)))
    case _ => Replacement(t)
  }

  /** Two bytes, most significant first, read back least significant first. */
  function Swap16(v: nat): (r: nat)
    ensures r < 0x1_0000
    ensures v < 0x1_0000 ==> r / 0x100 == v % 0x100 && r % 0x100 == v / 0x100
  {
    (v % 0x100) * 0x100 + (v / 0x100) % 0x100
  }

  /** Four bytes, most significant first, read back least significant first. */
  function Swap32(v: nat): (r: nat)
    ensures r < 0x1_0000_0000
    ensures r % 0x100 == (v / 0x100_0000) % 0x100 && r / 0x100_0000 == v % 0x100
  {
    (v % 0x100) * 0x100_0000 + ((v / 0x100) % 0x100) * 0x1_0000 + ((v / 0x1_0000) % 0x100) * 0x100 + (v / 0x100_0000) % 0x100
  }

  /**
   * `Regex.Replace` from position `i`: matches are found left to right, each
   * replaced by `f` of its token, and the first replacement that throws ends
   * the whole call.
   */
  function ReplaceFrom(s: string, i: nat, f: EscapeToken -> Result<string>): (r: Result<string>)
    requires i <= |s|
    decreases |s| - i
  {
    if i == |s| then Ok("")
    else match MatchEscape(s, i)
      case Some((t, n)) =>
        (match f(t)
         case Err(m) => Err(m)
         case Ok(x) =>
           match ReplaceFrom(s, i + n, f)
           case Err(m) => Err(m)
           case Ok(y) => Ok(x + y))
      case None =>
        match ReplaceFrom(s, i + 1, f)
        case Err(m) => Err(m)
        case Ok(y) => Ok([s[i]] + y)
  }

  /** `ProcessEscapeCharacters`, with the octal digits read where they are. */
  function ProcessEscapes(s: string): Result<string>
  {
    ReplaceFrom(s, 0, Replacement)
  }

  /** `ProcessEscapeCharacters` as written. */
  function ProcessEscapesAsWritten(s: string): Result<string>
  {
    ReplaceFrom(s, 0, ReplacementAsWritten)
  }

  /** Text without a backslash passes through unchanged. */
  lemma {:induction false} NoBackslashFrom(s: string, i: nat, f: EscapeToken -> Result<string>)
    requires i <= |s| && '\\' !in s
    ensures ReplaceFrom(s, i, f) == Ok(s[i..])
    decreases |s| - i
  {
    if i < |s| {
      assert s[i] in s;
      assert MatchEscape(s, i).None?;
      NoBackslashFrom(s, i + 1, f);
      assert ReplaceFrom(s, i, f) == Ok([s[i]] + s[i + 1..]);
      assert s[i..] == [s[i]] + s[i + 1..];
    } else {
      assert s[i..] == [];
    }
  }

  lemma NoBackslashUnchanged(s: string)
    requires '\\' !in s
    ensures ProcessEscapes(s) == Ok(s)
    ensures ProcessEscapesAsWritten(s) == Ok(s)
  {
    NoBackslashFrom(s, 0, Replacement);
    NoBackslashFrom(s, 0, ReplacementAsWritten);
  }

  /** A string that is one whole escape is replaced by that escape's replacement. */
  lemma WholeEscape(s: string, t: EscapeToken, f: EscapeToken -> Result<string>)
    requires s != [] && MatchEscape(s, 0) == Some((t, |s|))
    ensures ReplaceFrom(s, 0, f) == f(t)
  {
    assert ReplaceFrom(s, |s|, f) == Ok("");
    if f(t).Ok? {
      assert f(t).value + "" == f(t).value;
    }
  }

  /** A backslash followed by one of a, b, f, n, r, t, \, ' or " decodes to one character. */
  lemma SimpleEscapeDecoded(c: char)
    requires IsSimpleEscape(c)
    ensures ProcessEscapes(['\\', c]) == Ok([SimpleChar(c)])
  {
    var s := ['\\', c];
    assert MatchEscape(s, 0) == Some((Simple(c), 2));
    WholeEscape(s, Simple(c), Replacement);
  }

  /** The escape at `j`, if any, is replaced by `f` as by `g` wherever `f` does not throw. */
  ghost predicate AgreesAt(s: string, j: nat, f: EscapeToken -> Result<string>, g: EscapeToken -> Result<string>)
    requires j < |s|
  {
    MatchEscape(s, j).Some? ==>
      var t := MatchEscape(s, j).value.0;
      f(t).Ok? ==> f(t) == g(t)
  }

  lemma {:induction false} ReplaceAgrees(s: string, i: nat, f: EscapeToken -> Result<string>, g: EscapeToken -> Result<string>)
    requires i <= |s|
    requires forall j :: i <= j < |s| ==> AgreesAt(s, j, f, g)
    ensures ReplaceFrom(s, i, f).Ok? ==> ReplaceFrom(s, i, f) == ReplaceFrom(s, i, g)
    decreases |s| - i
  {
    if i < |s| {
      assert AgreesAt(s, i, f, g);
      match MatchEscape(s, i)
      case Some((t, n)) => ReplaceAgrees(s, i + n, f, g);
      case None => ReplaceAgrees(s, i + 1, f, g);
    }
  }

  /**
   * Without `\u` and `\U` escapes, wherever the code as written decodes a
   * line, it decodes it as the corrected evaluator does.
   */
  lemma AsWrittenAgrees(s: string)
    requires forall j :: 0 <= j < |s| ==> MatchEscape(s, j).Some? ==> !MatchEscape(s, j).value.0.Short? && !MatchEscape(s, j).value.0.Long?
    ensures ProcessEscapesAsWritten(s).Ok? ==> ProcessEscapesAsWritten(s) == ProcessEscapes(s)
  {
    forall j | 0 <= j < |s|
      ensures AgreesAt(s, j, ReplacementAsWritten, Replacement)
    {
    }
    ReplaceAgrees(s, 0, ReplacementAsWritten, Replacement);
  }

  /** `HexNumber` evaluated digit by digit: `vs[k]` is the value of the first `k + 1` digits. */
  lemma {:induction false} HexSteps(h: string, vs: seq<nat>)
    requires AllHex(h) && |vs| == |h|
    requires |h| > 0 ==> vs[0] == HexValue(h[0])
    requires forall k :: 0 < k < |h| ==> vs[k] == vs[k - 1] * 16 + HexValue(h[k])
    ensures |h| > 0 ==> HexNumber(h) == vs[|h| - 1]
    decreases |h|
  {
    if |h| > 0 {
      var n := |h| - 1;
      var init := h[..n];
      var ws := vs[..n];
      forall k | 0 < k < |init|
        ensures ws[k] == ws[k - 1] * 16 + HexValue(init[k])
      {
        assert init[k] == h[k] && ws[k] == vs[k] && ws[k - 1] == vs[k - 1];
      }
      HexSteps(init, ws);
      assert HexNumber(h) == HexNumber(init) * 16 + HexValue(h[n]);
      if n > 0 {
        assert vs[n] == vs[n - 1] * 16 + HexValue(h[n]);
      }
    }
  }

  /** `\u0041`: as written it gives U+4100; read most significant byte first it is "A". */
  lemma ShortEscapeByteOrder()
    ensures ProcessEscapesAsWritten("\\u0041") == Ok("\U{4100}")
    ensures ProcessEscapes("\\u0041") == Ok("A")
  {
    var s := "\\u0041";
    var h := "0041";
    assert s[2..6] == h;
    assert HexValue('0') == 0 && HexValue('4') == 4 && HexValue('1') == 1;
    var vs: seq<nat> := [0, 0, 0x4, 0x41];
    assert forall k :: 0 < k < |h| ==> vs[k] == vs[k - 1] * 16 + HexValue(h[k]);
    HexSteps(h, vs);
    assert HexNumber(h) == 0x41;
    assert MatchEscape(s, 0) == Some((Short(0x41), 6));
    assert Swap16(0x41) == 0x4100;
    WholeEscape(s, Short(0x41), Replacement);
    WholeEscape(s, Short(0x41), ReplacementAsWritten);
  }

  /** `\U0001F600`: as written the reversed value is beyond U+10FFFF and throws; read in order it is U+1F600. */
  lemma LongEscapeThrows()
    ensures ProcessEscapesAsWritten("\\U0001F600") == Err("ArgumentOutOfRangeException")
    ensures ProcessEscapes("\\U0001F600") == Ok("\U{1F600}")
  {
    var s := "\\U0001F600";
    var h := "0001F600";
    assert s[2..10] == h;
    assert HexValue('0') == 0 && HexValue('1') == 1 && HexValue('F') == 15 && HexValue('6') == 6;
    var vs: seq<nat> := [0, 0, 0, 0x1, 0x1F, 0x1F6, 0x1F60, 0x1F600];
    assert forall k :: 0 < k < |h| ==> vs[k] == vs[k - 1] * 16 + HexValue(h[k]);
    HexSteps(h, vs);
    assert HexNumber(h) == 0x1F600;
    assert MatchEscape(s, 0) == Some((Long(0x1F600), 10));
    assert Swap32(0x1F600) == 0x00F6_0100;
    WholeEscape(s, Long(0x1F600), Replacement);
    WholeEscape(s, Long(0x1F600), ReplacementAsWritten);
  }

  /** The octal escape `\101`: as written it throws; read at positions 0..2 it is "A". */
  lemma OctalEscapeThrows()
    ensures ProcessEscapesAsWritten("\\101") == Err("IndexOutOfRangeException")
    ensures ProcessEscapes("\\101") == Ok("A")
  {
    var s := "\\101";
    assert s[1..4] == "101";
    assert MatchEscape(s, 0) == Some((Octal("101"), 4));
    assert OctalChar("101") == 'A';
    WholeEscape(s, Octal("101"), Replacement);
    WholeEscape(s, Octal("101"), ReplacementAsWritten);
  }

  /** An octal escape decodes to the character its three digits number. */
  lemma OctalEscapeDecoded(d0: char, d1: char, d2: char)
    requires IsOctalDigit(d0) && IsOctalDigit(d1) && IsOctalDigit(d2)
    ensures ProcessEscapes(['\\', d0, d1, d2]) == Ok([OctalChar([d0, d1, d2])])
    ensures ProcessEscapesAsWritten(['\\', d0, d1, d2]) == Err("IndexOutOfRangeException")
  {
    var s := ['\\', d0, d1, d2];
    assert s[1..4] == [d0, d1, d2];
    assert !IsSimpleEscape(d0);
    assert MatchEscape(s, 0) == Some((Octal([d0, d1, d2]), 4));
    WholeEscape(s, Octal([d0, d1, d2]), Replacement);
    WholeEscape(s, Octal([d0, d1, d2]), ReplacementAsWritten);
  }

  /** A named escape `\N{...}` keeps its braces and drops the backslash and the N. */
  lemma NamedEscapeKeepsBraces()
    ensures ProcessEscapes("\\N{DASH}") == Ok("{DASH}")
  {
    var s := "\\N{DASH}";
    assert IndexOfCharFrom(s, '}', 3) == 7;
    assert s[2..8] == "{DASH}";
    assert MatchEscape(s, 0) == Some((Named("{DASH}"), 8));
    WholeEscape(s, Named("{DASH}"), Replacement);
  }

  // ---------------------------------------------------------------------------
  // ReadHeader

  /** The line that opens the docstring: not blank, and trimmed it starts with three quotes. */
  predicate Opens(line: string)
  {
    !IsBlank(line) && (StartsWith(Trim(line), "\"\"\"") || StartsWith(Trim(line), "'''"))
  }

  /** The three characters that close the docstring. */
  function Sentinel(line: string): (r: string)
    requires Opens(line)
    ensures |r| == 3
  {
    Trim(line)[..3]
  }

  /** The opening line's text after the delimiter. */
  function Opening(line: string): string
    requires Opens(line)
  {
    Trim(line)[3..]
  }

  /** A line that does not close the docstring: the delimiter occurs nowhere in it. */
  function Unclosed(sentinel: string): string -> bool
  {
    line => IndexOf(line, sentinel) < 0
  }

  /** The closing line's text before the delimiter. */
  function ClosingPiece(line: string, sentinel: string): string
  {
    var k := IndexOf(line, sentinel);
    if k >= 0 then line[..k] else line
  }

  /** Every piece decoded, in order; the first piece that throws ends the reading. */
  function EscapeAll(pieces: seq<string>): (r: Result<seq<string>>)
    ensures r.Ok? ==> |r.value| == |pieces|
    decreases |pieces|
  {
    if pieces == [] then Ok([])
    else
      match EscapeAll(pieces[..|pieces| - 1])
      case Err(m) => Err(m)
      case Ok(done) =>
        match ProcessEscapesAsWritten(pieces[|pieces| - 1])
        case Err(m) => Err(m)
        case Ok(x) => Ok(done + [x])
  }

  lemma EscapeAllStep(pieces: seq<string>, x: string)
    ensures EscapeAll(pieces + [x]) ==
      match EscapeAll(pieces)
      case Err(m) => Err(m)
      case Ok(done) => (match ProcessEscapesAsWritten(x) case Err(m) => Err(m) case Ok(y) => Ok(done + [y]))
  {
    assert (pieces + [x])[..|pieces|] == pieces;
  }

  /** Once a piece has thrown, later pieces do not matter. */
  lemma {:induction false} EscapeAllErr(pieces: seq<string>, more: seq<string>)
    requires EscapeAll(pieces).Err?
    ensures EscapeAll(pieces + more) == EscapeAll(pieces)
    decreases |more|
  {
    if more != [] {
      var init := more[..|more| - 1];
      EscapeAllErr(pieces, init);
      assert pieces + more == (pieces + init) + [more[|more| - 1]];
      EscapeAllStep(pieces + init, more[|more| - 1]);
    } else {
      assert pieces + more == pieces;
    }
  }

  /**
   * The header lines `ReadHeader` yields: the decoded opening text, the
   * lines up to the first that holds the delimiter, and that line's text
   * before the delimiter, each ended by a newline, split at line breaks.
   * No docstring, or one the input ends inside, gives no lines; a piece whose
   * escapes throw makes the whole read throw.
   */
  function Header(lines: seq<string>): Result<seq<string>>
  {
    HeaderAt(lines, Skip(lines, 0, WindowsBatchScriptParser.IsSkipped))
  }

  function HeaderAt(lines: seq<string>, k: nat): Result<seq<string>>
    requires k <= |lines|
  {
    if k == |lines| || !Opens(lines[k]) then Ok([])
    else BodyHeader(lines, k + 1, Sentinel(lines[k]), Opening(lines[k]))
  }

  /** The pieces the docstring is made of when the body starts at `start`. */
  function Pieces(lines: seq<string>, start: nat, sentinel: string, first: string): seq<string>
    requires start <= |lines|
  {
    var e := Skip(lines, start, Unclosed(sentinel));
    [first] + lines[start..e] + (if e < |lines| then [ClosingPiece(lines[e], sentinel)] else [])
  }

  function BodyHeader(lines: seq<string>, start: nat, sentinel: string, first: string): Result<seq<string>>
    requires start <= |lines|
  {
    match EscapeAll(Pieces(lines, start, sentinel, first))
    case Err(m) => Err(m)
    case Ok(texts) =>
      if Skip(lines, start, Unclosed(sentinel)) == |lines| then Ok([]) else Ok(SplitNewlines(LinesText(texts)))
  }

  /** `ReadHeader`: reads lines one at a time, as from the script's `TextReader`. */
  method ReadHeader(lines: seq<string>) returns (header: Result<seq<string>>)
    ensures header == Header(lines)
  {
    var i := WindowsBatchScriptParser.SkipLeading(lines);
    assert Header(lines) == HeaderAt(lines, i);
    if i < |lines| && !IsBlank(lines[i]) {
      var line := Trim(lines[i]);
      if StartsWith(line, "\"\"\"") || StartsWith(line, "'''") {
        assert Opens(lines[i]) && line[..3] == Sentinel(lines[i]) && line[3..] == Opening(lines[i]);
        header := ReadBody(lines, i + 1, line[..3], line[3..]);
        return;
      }
    }
    assert i == |lines| || !Opens(lines[i]);
    header := Ok([]);
  }

  /** The docstring part of `ReadHeader`: decodes the opening text, then the lines after it. */
  method ReadBody(lines: seq<string>, start: nat, sentinel: string, first: string) returns (header: Result<seq<string>>)
    requires start <= |lines|
    ensures header == BodyHeader(lines, start, sentinel, first)
  {
    var openText := ProcessEscapesAsWritten(first);
    if openText.Err? {
      OpeningFails(lines, start, sentinel, first);
      return Err(openText.error);
    }
    OpeningDecoded(lines, start, sentinel, first);
    header := ReadLines(lines, start, sentinel, first, [openText.value], openText.value + NewLine);
  }

  /**
   * The docstring loop of `ReadHeader`: decodes lines until one holds the
   * delimiter, appending each decoded line and a newline to `buffer`.
   */
  method ReadLines(lines: seq<string>, start: nat, sentinel: string, first: string, ghost done0: seq<string>, buffer0: string)
    returns (header: Result<seq<string>>)
    requires start <= |lines|
    requires EscapeAll([first] + lines[start..start]) == Ok(done0) && buffer0 == LinesText(done0)
    ensures header == BodyHeader(lines, start, sentinel, first)
  {
    var buffer := buffer0;
    ghost var done := done0;
    var i := start;
    while i < |lines|
      invariant start <= i <= |lines|
      invariant forall j :: start <= j < i ==> IndexOf(lines[j], sentinel) < 0
      invariant EscapeAll([first] + lines[start..i]) == Ok(done)
      invariant buffer == LinesText(done)
    {
      var line := lines[i];
      var end := IndexOf(line, sentinel);
      if end >= 0 {
        ClosesAt(lines, start, i, sentinel, first, done);
        var last := ProcessEscapesAsWritten(line[..end]);
        if last.Err? {
          return Err(last.error);
        }
        buffer := buffer + last.value + NewLine;
        LinesTextAppend(done, last.value);
        return Ok(SplitNewlines(buffer));
      }
      var piece := ProcessEscapesAsWritten(line);
      if piece.Err? {
        Continues(lines, start, i, first, done);
        ReadBodyFails(lines, start, i, sentinel, first);
        return Err(piece.error);
      }
      ContinuesOk(lines, start, i, first, done, piece.value);
      buffer := buffer + piece.value + NewLine;
      done := done + [piece.value];
      i := i + 1;
    }
    Unterminated(lines, start, sentinel, first, done);
    header := Ok([]);
  }

  lemma EscapeOne(x: string)
    ensures var r := ProcessEscapesAsWritten(x); EscapeAll([x]) == if r.Err? then Err(r.error) else Ok([r.value])
  {
    assert [x][..0] == [];
    var r := ProcessEscapesAsWritten(x);
    if r.Ok? {
      assert [] + [r.value] == [r.value];
    }
  }

  lemma OpeningFails(lines: seq<string>, start: nat, sentinel: string, first: string)
    requires start <= |lines| && ProcessEscapesAsWritten(first).Err?
    ensures BodyHeader(lines, start, sentinel, first) == Err(ProcessEscapesAsWritten(first).error)
  {
    EscapeOne(first);
    var p := Pieces(lines, start, sentinel, first);
    EscapeAllErr([first], p[1..]);
    assert [first] + p[1..] == p;
  }

  lemma OpeningDecoded(lines: seq<string>, start: nat, sentinel: string, first: string)
    requires start <= |lines| && ProcessEscapesAsWritten(first).Ok?
    ensures EscapeAll([first] + lines[start..start]) == Ok([ProcessEscapesAsWritten(first).value])
  {
    EscapeOne(first);
    assert [first] + lines[start..start] == [first];
  }

  /** The line at `i` holds the delimiter: the docstring is the decoded pieces so far and that line's text before it. */
  lemma ClosesAt(lines: seq<string>, start: nat, i: nat, sentinel: string, first: string, done: seq<string>)
    requires start <= i < |lines|
    requires forall j :: start <= j < i ==> IndexOf(lines[j], sentinel) < 0
    requires IndexOf(lines[i], sentinel) >= 0
    requires EscapeAll([first] + lines[start..i]) == Ok(done)
    ensures var last := ProcessEscapesAsWritten(lines[i][..IndexOf(lines[i], sentinel)]);
      BodyHeader(lines, start, sentinel, first) ==
        if last.Err? then Err(last.error) else Ok(SplitNewlines(LinesText(done + [last.value])))
  {
    SkipTo(lines, start, i, Unclosed(sentinel));
    var prefix := [first] + lines[start..i];
    assert Pieces(lines, start, sentinel, first) == prefix + [ClosingPiece(lines[i], sentinel)];
    EscapeAllStep(prefix, ClosingPiece(lines[i], sentinel));
  }

  lemma Continues(lines: seq<string>, start: nat, i: nat, first: string, done: seq<string>)
    requires start <= i < |lines|
    requires EscapeAll([first] + lines[start..i]) == Ok(done)
    ensures var piece := ProcessEscapesAsWritten(lines[i]);
      EscapeAll([first] + lines[start..i + 1]) == if piece.Err? then Err(piece.error) else Ok(done + [piece.value])
  {
    var prefix := [first] + lines[start..i];
    assert [first] + lines[start..i + 1] == prefix + [lines[i]];
    EscapeAllStep(prefix, lines[i]);
  }

  /** A body line without the delimiter decodes and is appended, with a newline, to the buffer. */
  lemma ContinuesOk(lines: seq<string>, start: nat, i: nat, first: string, done: seq<string>, x: string)
    requires start <= i < |lines|
    requires EscapeAll([first] + lines[start..i]) == Ok(done) && ProcessEscapesAsWritten(lines[i]) == Ok(x)
    ensures EscapeAll([first] + lines[start..i + 1]) == Ok(done + [x])
    ensures LinesText(done + [x]) == LinesText(done) + x + NewLine
  {
    Continues(lines, start, i, first, done);
    LinesTextAppend(done, x);
  }

  lemma Unterminated(lines: seq<string>, start: nat, sentinel: string, first: string, done: seq<string>)
    requires start <= |lines|
    requires forall j :: start <= j < |lines| ==> IndexOf(lines[j], sentinel) < 0
    requires EscapeAll([first] + lines[start..|lines|]) == Ok(done)
    ensures BodyHeader(lines, start, sentinel, first) == Ok([])
  {
    SkipTo(lines, start, |lines|, Unclosed(sentinel));
    assert Pieces(lines, start, sentinel, first) == [first] + lines[start..|lines|];
  }

  /** A body line that throws before the delimiter is found makes the whole read throw. */
  lemma ReadBodyFails(lines: seq<string>, start: nat, i: nat, sentinel: string, first: string)
    requires start <= i < |lines|
    requires forall j :: start <= j <= i ==> IndexOf(lines[j], sentinel) < 0
    requires EscapeAll([first] + lines[start..i + 1]).Err?
    ensures BodyHeader(lines, start, sentinel, first) == EscapeAll([first] + lines[start..i + 1])
  {
    var e := Skip(lines, start, Unclosed(sentinel));
    SkipFrom(lines, start, i + 1, Unclosed(sentinel));
    var p := Pieces(lines, start, sentinel, first);
    var head := [first] + lines[start..i + 1];
    var tail := lines[i + 1..e] + (if e < |lines| then [ClosingPiece(lines[e], sentinel)] else []);
    assert lines[start..e] == lines[start..i + 1] + lines[i + 1..e];
    assert p == head + tail;
    EscapeAllErr(head, tail);
  }

  // The header's properties

  lemma BodyHeaderShift(pre: seq<string>, rest: seq<string>, k: nat, j: nat, sentinel: string, first: string)
    requires k < |rest| && j == |pre| + k
    ensures BodyHeader(pre + rest, j + 1, sentinel, first) == BodyHeader(rest, k + 1, sentinel, first)
  {
    SkipShiftNext(pre, rest, k, j, Unclosed(sentinel));
    var e := Skip(rest, k + 1, Unclosed(sentinel));
    PiecesShift(pre, rest, k, j, e, sentinel, first);
  }

  lemma PiecesShift(pre: seq<string>, rest: seq<string>, k: nat, j: nat, e: nat, sentinel: string, first: string)
    requires k < |rest| && j == |pre| + k
    requires e == Skip(rest, k + 1, Unclosed(sentinel))
    requires Skip(pre + rest, j + 1, Unclosed(sentinel)) == |pre| + e
    ensures Pieces(pre + rest, j + 1, sentinel, first) == Pieces(rest, k + 1, sentinel, first)
  {
    var s := pre + rest;
    assert s[j + 1..|pre| + e] == rest[k + 1..e];
    if e < |rest| {
      assert s[|pre| + e] == rest[e];
    }
  }

  lemma HeaderAtShift(pre: seq<string>, rest: seq<string>, k: nat, j: nat)
    requires k <= |rest| && j == |pre| + k
    ensures HeaderAt(pre + rest, j) == HeaderAt(rest, k)
  {
    if k < |rest| {
      var s := pre + rest;
      assert s[j] == rest[k];
      if Opens(rest[k]) {
        BodyHeaderShift(pre, rest, k, j, Sentinel(rest[k]), Opening(rest[k]));
      }
    }
  }

  /** Leading "#" lines are skipped: the header is that of the lines after them. */
  lemma SkipsComments(pre: seq<string>, rest: seq<string>)
    requires forall j :: 0 <= j < |pre| ==> WindowsBatchScriptParser.IsSkipped(pre[j])
    ensures Header(pre + rest) == Header(rest)
  {
    var s := pre + rest;
    var k := Skip(rest, 0, WindowsBatchScriptParser.IsSkipped);
    var j := Skip(s, 0, WindowsBatchScriptParser.IsSkipped);
    assert forall i :: 0 <= i < |pre| ==> s[i] == pre[i];
    SkipFrom(s, 0, |pre|, WindowsBatchScriptParser.IsSkipped);
    SkipShift(pre, rest, 0, WindowsBatchScriptParser.IsSkipped);
    assert j == |pre| + k;
    HeaderAtShift(pre, rest, k, j);
  }

  /** A blank line before the docstring means there is no header. */
  lemma BlankLineNoHeader(b: string, rest: seq<string>)
    requires IsBlank(b)
    ensures Header([b] + rest) == Ok([])
  {
  }

  lemma OpensNotSkipped(open: string)
    requires Opens(open)
    ensures !WindowsBatchScriptParser.IsSkipped(open)
  {
    var t := Trim(open);
    if StartsWith(t, "\"\"\"") { StartsWithFirst(t, "\"\"\""); } else { StartsWithFirst(t, "'''"); }
    if StartsWith(t, "#") { StartsWithFirst(t, "#"); }
  }

  /** If the input ends inside the docstring, the header is empty (unless an escape throws first). */
  lemma UnterminatedHeader(open: string, body: seq<string>)
    requires Opens(open)
    requires forall j :: 0 <= j < |body| ==> Unclosed(Sentinel(open))(body[j])
    ensures Header([open] + body).Ok? ==> Header([open] + body) == Ok([])
  {
    OpensNotSkipped(open);
    var s := [open] + body;
    assert forall j :: 1 <= j < |s| ==> s[j] == body[j - 1];
    SkipTo(s, 1, |s|, Unclosed(Sentinel(open)));
  }

  /**
   * The header of an opening line, lines without the delimiter and a line
   * holding it: the decoded opening text, body lines and text before the
   * delimiter, split at line breaks.
   */
  lemma BlockHeader(open: string, body: seq<string>, close: string, rest: seq<string>)
    requires Opens(open)
    requires forall j :: 0 <= j < |body| ==> Unclosed(Sentinel(open))(body[j])
    requires !Unclosed(Sentinel(open))(close)
    ensures Header([open] + body + [close] + rest) ==
      match EscapeAll([Opening(open)] + body + [ClosingPiece(close, Sentinel(open))])
      case Err(m) => Err(m)
      case Ok(texts) => Ok(SplitNewlines(LinesText(texts)))
  {
    OpensNotSkipped(open);
    var s := [open] + body + [close] + rest;
    BlockSlices(open, body, close, rest);
    SkipTo(s, 1, |body| + 1, Unclosed(Sentinel(open)));
  }

  /** Pieces without a backslash decode to themselves. */
  lemma {:induction false} EscapeAllPlain(pieces: seq<string>)
    requires forall j :: 0 <= j < |pieces| ==> '\\' !in pieces[j]
    ensures EscapeAll(pieces) == Ok(pieces)
    decreases |pieces|
  {
    if pieces != [] {
      var init := pieces[..|pieces| - 1];
      EscapeAllPlain(init);
      NoBackslashUnchanged(pieces[|pieces| - 1]);
      assert init + [pieces[|pieces| - 1]] == pieces;
    }
  }

  /** An opening line and lines without the delimiter, none with a backslash, give an empty header. */
  lemma PlainUnterminated(open: string, body: seq<string>)
    requires Opens(open) && '\\' !in Opening(open)
    requires forall j :: 0 <= j < |body| ==> '\\' !in body[j] && IndexOf(body[j], Sentinel(open)) < 0
    ensures Header([open] + body) == Ok([])
  {
    var s := [open] + body;
    var sentinel, first := Sentinel(open), Opening(open);
    OpensNotSkipped(open);
    SkipTo(s, 0, 0, WindowsBatchScriptParser.IsSkipped);
    assert Header(s) == BodyHeader(s, 1, sentinel, first);
    assert s[1..] == body;
    PlainBody(s, body, sentinel, first);
  }

  /** The docstring body of `PlainUnterminated`: pieces without a backslash, and no line closes. */
  lemma PlainBody(s: seq<string>, body: seq<string>, sentinel: string, first: string)
    requires |s| == |body| + 1 && s[1..] == body && '\\' !in first
    requires forall j :: 0 <= j < |body| ==> '\\' !in body[j] && IndexOf(body[j], sentinel) < 0
    ensures BodyHeader(s, 1, sentinel, first) == Ok([])
  {
    assert forall j :: 1 <= j < |s| ==> s[j] == body[j - 1] && Unclosed(sentinel)(s[j]);
    SkipTo(s, 1, |s|, Unclosed(sentinel));
    var pieces := [first] + body;
    assert Pieces(s, 1, sentinel, first) == pieces;
    forall j | 0 <= j < |pieces| ensures '\\' !in pieces[j] {
      if j > 0 {
        assert pieces[j] == body[j - 1];
      }
    }
    EscapeAllPlain(pieces);
  }

  /**
   * A docstring closed on its own opening line is not noticed: reading goes
   * on through later lines without the delimiter, and the header ends
   * unterminated, hence empty.
   */
  lemma OneLineDocstringNotClosed(x: string, body: seq<string>)
    requires '\\' !in x
    requires forall j :: 0 <= j < |body| ==> '\\' !in body[j] && IndexOf(body[j], "\"\"\"") < 0
    ensures Header(["\"\"\"" + x + "\"\"\""] + body) == Ok([])
  {
    var delim := "\"\"\"";
    DelimitedOpens(x);
    assert '\\' !in x + delim;
    PlainUnterminated(delim + x + delim, body);
  }

  lemma DelimitedOpens(x: string)
    ensures var open := "\"\"\"" + x + "\"\"\"";
      Opens(open) && Sentinel(open) == "\"\"\"" && Opening(open) == x + "\"\"\""
  {
    var delim := "\"\"\"";
    var open := delim + x + delim;
    assert open[0] == '"' && open[|open| - 1] == '"';
    assert !IsWhite(open[0]);
    assert !IsBlank(open);
    TrimOfTrimmed(open);
    assert open[..3] == delim && open[3..] == x + delim;
    assert StartsWith(Trim(open), delim);
  }

  // ---------------------------------------------------------------------------
  // ParseLine and ParseSections

  /**
   * `^(?<1>\w+)\s*:\s*$`: a word, optional white space, a colon and nothing
   * but white space after it.
   */
  function MatchBareTitle(line: string): (r: Option<string>)
    ensures r.Some? ==> r.value != [] && StartsWith(line, r.value)
    ensures r.Some? ==> forall i :: 0 <= i < |r.value| ==> IsWordChar(r.value[i])
    ensures r.Some? <==> MatchTitle(line).Some? && MatchTitle(line).value.1 == ""
  {
    var i := Skip(line, 0, IsWordChar);
    var j := Skip(line, i, IsWhite);
    if 0 < i && j < |line| && line[j] == ':' && Skip(line, j + 1, IsWhite) == |line| then
      SliceAll(line, 0, i, IsWordChar);
      Some(line[..i])
    else None
  }

  /** An unindented `word:` line with nothing after the colon is a title; any other line is content. */
  function ParseLine(line: string): (r: ParsedLine)
    ensures r.title.Some? <==> MatchBareTitle(line).Some? && !WindowsBatchScriptParser.StartsWithWhiteSpace(line)
    ensures r.title.Some? ==> r.title == MatchBareTitle(line) && r.content.None?
    ensures r.title.None? ==> r.content == Some(line)
  {
    var m := MatchBareTitle(line);
    if !WindowsBatchScriptParser.StartsWithWhiteSpace(line) && m.Some? then ParsedLine(None, m) else ParsedLine(Some(line), None)
  }

  /** A title line with text after its colon is content, not a title. */
  lemma InlineTextIsContent(w: string, t: string, k: nat)
    requires w != [] && forall i :: 0 <= i < |w| ==> IsWordChar(w[i])
    requires k < |t| && !IsWhite(t[k])
    ensures ParseLine(w + ":" + t) == ParsedLine(Some(w + ":" + t), None)
  {
    var s := w + ":" + t;
    assert s[|w|] == ':' && !IsWordChar(s[|w|]) && !IsWhite(s[|w|]);
    assert forall i :: 0 <= i < |w| ==> IsWordChar(s[i]);
    SkipTo(s, 0, |w|, IsWordChar);
    SkipTo(s, |w|, |w|, IsWhite);
    assert s[|w| + 1 + k] == t[k];
    var e := Skip(s, |w| + 1, IsWhite);
    assert e <= |w| + 1 + k;
  }

  /**
   * `ParseSections`: the summary is the untitled text alone; parameters come
   * from `AhParameters` sections only; an `AhArgsFormat` is validated when it
   * is not empty, and none is synthesised.
   */
  function ParseSections(secs: seq<(string, string)>, parse: string -> Result<ParamInfo>, validate: string -> Option<string>): (r: ScriptInfo)
    ensures r.summary == Trim(Merged(secs, ""))
    ensures |r.parameters| <= |GetParameters(secs, ["AhParameters"])| <= |r.parameters| + |r.warnings|
    ensures r.execMode == Trim(Merged(secs, "AhExecMode"))
    ensures r.configValues == ConfigurationValues(secs)
    ensures r.argsFormat == Trim(Merged(secs, "AhArgsFormat"))
    ensures r.argsFormat == "" ==> forall w :: w in r.warnings ==> StartsWith(w, ParameterWarning)
    ensures forall w :: w in r.warnings ==> StartsWith(w, ParameterWarning) || StartsWith(w, FormatWarning)
  {
    var (parameters, paramWarnings) := ParseParameters(GetParameters(secs, ["AhParameters"]), parse);
    var argsFormat := Trim(Merged(secs, "AhArgsFormat"));
    var formatWarnings := if argsFormat != "" then FormatWarnings(argsFormat, validate) else [];
    ScriptInfo(parameters, Trim(Merged(secs, "")), paramWarnings + formatWarnings, argsFormat, ConfigurationValues(secs), Trim(Merged(secs, "AhExecMode")))
  }

  /** The whole parse: header, sections, script information; a throwing escape fails it. */
  method Parse(lines: seq<string>, parse: string -> Result<ParamInfo>, validate: string -> Option<string>) returns (info: Result<ScriptInfo>)
    ensures Header(lines).Err? ==> info == Err(Header(lines).error)
    ensures Header(lines).Ok? ==> info == Ok(ParseSections(Sections(Header(lines).value, ParseLine), parse, validate))
  {
    var header := ReadHeader(lines);
    if header.Err? {
      return Err(header.error);
    }
    var list := ParseInternal(header.value, ParseLine);
    info := Ok(ParseSections(list.sections, parse, validate));
  }
}
