/**
 * `PowerShellScriptInfo.Parse`: reads the parameters of a PowerShell
 * script's `param(...)` block from its token stream and attaches the
 * descriptions, execution-mode variable and configuration groups of the
 * comment-based help block that precedes it.
 *
 * The tokens come from the PowerShell tokenizer and the help blocks from
 * the documentation regular expression; both are inputs here.
 */
module PowerShellScriptInfo {
  import opened Common
  import PSConfigParameterInfo

  // ---------------------------------------------------------------------------
  // Tokens and scraped parameters

  /** The `PSTokenType`s the scraper distinguishes; every other kind is `OtherKind`. */
  datatype TokenKind = Attribute | Comment | GroupEnd | GroupStart | Keyword | Member | NewLine | Operator | TypeName | Variable | OtherKind

  datatype Token = Token(kind: TokenKind, content: string)

  /** The private `ParamInfo` record the scraper fills in. */
  datatype ParamInfo = ParamInfo(name: Option<string>, typeName: Option<string>, defaultValue: Option<string>, mandatory: bool)

  const NewParam: ParamInfo := ParamInfo(None, None, None, false)

  predicate IsBooleanOrSwitch(p: ParamInfo)
  {
    p.typeName.Some? && (EqIC(p.typeName.value, "switch") || EqIC(p.typeName.value, "bool") || EqIC(p.typeName.value, "System.Boolean"))
  }

  predicate IsOutput(p: ParamInfo)
  {
    p.typeName.Some? && EqIC(p.typeName.value, "ref")
  }

  // ---------------------------------------------------------------------------
  // Collecting the tokens of the `param(...)` group

  predicate Kept(t: Token)
  {
    t.kind != Comment && t.kind != NewLine
  }

  predicate Opens(t: Token)
  {
    t.kind == GroupStart && t.content == "("
  }

  predicate Closes(t: Token)
  {
    t.kind == GroupEnd && t.content == ")"
  }

  /** The kept tokens from `i` on, up to and including the `)` that brings the depth to zero or below. */
  function CollectFrom(ts: seq<Token>, i: nat, depth: int): (r: seq<Token>)
    requires i <= |ts|
    ensures forall k :: 0 <= k < |r| ==> Kept(r[k])
    decreases |ts| - i
  {
    if i == |ts| then []
    else if !Kept(ts[i]) then CollectFrom(ts, i + 1, depth)
    else if Opens(ts[i]) then [ts[i]] + CollectFrom(ts, i + 1, depth + 1)
    else if Closes(ts[i]) then [ts[i]] + (if depth - 1 <= 0 then [] else CollectFrom(ts, i + 1, depth - 1))
    else [ts[i]] + CollectFrom(ts, i + 1, depth)
  }

  function ParamTokens(ts: seq<Token>): seq<Token>
  {
    CollectFrom(ts, 0, 0)
  }

  /** The collecting loop of `ScrapeParameters`. */
  method CollectParamTokens(tokens: seq<Token>) returns (paramTokens: seq<Token>)
    ensures paramTokens == ParamTokens(tokens)
  {
    var groupDepth := 0;
    paramTokens := [];
    var i := 0;
    while i < |tokens|
      invariant i <= |tokens|
      invariant paramTokens + CollectFrom(tokens, i, groupDepth) == ParamTokens(tokens)
    {
      var token := tokens[i];
      ghost var d := groupDepth;
      if Kept(token) {
        assert CollectFrom(tokens, i, d) == [token] + (
          if Opens(token) then CollectFrom(tokens, i + 1, d + 1)
          else if Closes(token) then (if d - 1 <= 0 then [] else CollectFrom(tokens, i + 1, d - 1))
          else CollectFrom(tokens, i + 1, d));
        paramTokens := paramTokens + [token];
        if Opens(token) {
          groupDepth := groupDepth + 1;
        }
        if Closes(token) {
          groupDepth := groupDepth - 1;
          if groupDepth <= 0 {
            assert paramTokens + [] == ParamTokens(tokens);
            return;
          }
        }
      }
      i := i + 1;
    }
    assert paramTokens + [] == paramTokens;
  }

  /** A flat body between `(` and `)` is collected up to that `)`; what follows is not. */
  lemma {:induction false} CollectFlat(ts: seq<Token>, k: nat, body: seq<Token>, rest: seq<Token>)
    requires forall t :: t in body ==> Kept(t) && !Opens(t) && !Closes(t)
    requires ts == [Token(GroupStart, "(")] + body + [Token(GroupEnd, ")")] + rest
    requires 1 <= k <= |body| + 1
    ensures CollectFrom(ts, k, 1) == body[k - 1..] + [Token(GroupEnd, ")")]
    decreases |body| + 1 - k
  {
    BlockSlices(Token(GroupStart, "("), body, Token(GroupEnd, ")"), rest);
    if k <= |body| {
      assert ts[k] == body[k - 1] && ts[k] in body;
      CollectFlat(ts, k + 1, body, rest);
      assert body[k - 1..] == [body[k - 1]] + body[k..];
    } else {
      assert body[k - 1..] == [];
    }
  }

  /** The collector stops at the `)` closing `param(`: for a flat parameter list, exactly the group is kept. */
  lemma CollectStopsAtClose(body: seq<Token>, rest: seq<Token>)
    requires forall t :: t in body ==> Kept(t) && !Opens(t) && !Closes(t)
    ensures ParamTokens([Token(GroupStart, "(")] + body + [Token(GroupEnd, ")")] + rest)
      == [Token(GroupStart, "(")] + body + [Token(GroupEnd, ")")]
  {
    var ts := [Token(GroupStart, "(")] + body + [Token(GroupEnd, ")")] + rest;
    assert ts[0] == Token(GroupStart, "(");
    CollectFlat(ts, 1, body, rest);
    assert body[0..] == body;
  }

  // ---------------------------------------------------------------------------
  // The `[Parameter(...)]` attribute

  predicate IsParameterAttribute(t: Token)
  {
    t.kind == Attribute && EqIC(t.content, "Parameter")
  }

  predicate IsMandatoryMember(t: Token)
  {
    t.kind == Member && EqIC(t.content, "Mandatory")
  }

  predicate IsAssign(t: Token)
  {
    t.kind == Operator && t.content == "="
  }

  /** `Mandatory = $x` with `x` other than `true`, at `j`. */
  predicate AssignedFalse(ts: seq<Token>, j: nat)
  {
    j + 2 < |ts| && IsAssign(ts[j + 1]) && ts[j + 2].kind == Variable && !EqIC(ts[j + 2].content, "true")
  }

  function GroupDelta(t: Token): int
  {
    if t.kind == GroupStart then 1 else if t.kind == GroupEnd then -1 else 0
  }

  /**
   * The attribute scan as intended: inside the attribute's parentheses a
   * `Mandatory` member makes the parameter mandatory unless it is assigned
   * a variable other than `$true`; nothing else changes the flag.
   */
  function MandatoryFrom(ts: seq<Token>, j: nat, count: int, m: bool): bool
    requires j <= |ts|
    decreases |ts| - j
  {
    if j == |ts| then m
    else
      var c := count + GroupDelta(ts[j]);
      if c <= 0 then m
      else if IsMandatoryMember(ts[j]) then MandatoryFrom(ts, j + 1, c, !AssignedFalse(ts, j))
      else MandatoryFrom(ts, j + 1, c, m)
  }

  /**
   * The attribute scan as written: the `Mandatory` member itself is
   * skipped, every other token inside the parentheses sets the flag, and
   * the `= $false` look-ahead reads `ts[j + 2]` when only `j + 2 <= |ts|`
   * is known, which is out of range when `j + 2 == |ts|`.
   */
  function MandatoryAsWritten(ts: seq<Token>, j: nat, count: int, m: bool): Result<bool>
    requires j <= |ts|
    decreases |ts| - j
  {
    if j == |ts| then Ok(m)
    else
      var c := count + GroupDelta(ts[j]);
      if c <= 0 then Ok(m)
      else if IsMandatoryMember(ts[j]) then MandatoryAsWritten(ts, j + 1, c, m)
      else if !(|ts| < j + 2) && IsAssign(ts[j + 1]) then
        if j + 2 >= |ts| then Err("ArgumentOutOfRangeException")
        else MandatoryAsWritten(ts, j + 1, c, !(ts[j + 2].kind == Variable && !EqIC(ts[j + 2].content, "true")))
      else MandatoryAsWritten(ts, j + 1, c, true)
  }

  /** The inner loop over the attribute's tokens, after the attribute at `i`, as written. */
  method ReadMandatory(paramTokens: seq<Token>, i: nat, m: bool) returns (mandatory: Result<bool>)
    requires i < |paramTokens|
    ensures mandatory == MandatoryAsWritten(paramTokens, i + 1, 0, m)
  {
    var flag := m;
    var groupCount := 0;
    var j := i + 1;
    while j < |paramTokens|
      invariant i + 1 <= j <= |paramTokens|
      invariant MandatoryAsWritten(paramTokens, j, groupCount, flag) == MandatoryAsWritten(paramTokens, i + 1, 0, m)
    {
      var t := paramTokens[j];
      if t.kind == GroupStart {
        groupCount := groupCount + 1;
      } else if t.kind == GroupEnd {
        groupCount := groupCount - 1;
      }
      if groupCount <= 0 {
        return Ok(flag);
      }
      if !IsMandatoryMember(t) {
        flag := true;
        if !(|paramTokens| < j + 2) && IsAssign(paramTokens[j + 1]) {
          if j + 2 >= |paramTokens| {
            return Err("ArgumentOutOfRangeException");
          }
          if paramTokens[j + 2].kind == Variable && !EqIC(paramTokens[j + 2].content, "true") {
            flag := false;
          }
        }
      }
      j := j + 1;
    }
    return Ok(flag);
  }

  /** `[Parameter(Mandatory = $false)] $x`, inside `param(...)`. */
  const MandatoryFalseTokens: seq<Token> := [
    Token(GroupStart, "("), Token(Attribute, "Parameter"), Token(GroupStart, "("), Token(Member, "Mandatory"),
    Token(Operator, "="), Token(Variable, "false"), Token(GroupEnd, ")"), Token(Variable, "x"), Token(GroupEnd, ")")]

  /** As written, `Mandatory = $false` still makes the parameter mandatory. */
  lemma MandatoryFalseIgnored()
    ensures MandatoryAsWritten(MandatoryFalseTokens, 2, 0, false) == Ok(true)
  {
    var ts := MandatoryFalseTokens;
    assert !IsMandatoryMember(ts[4]) && !IsMandatoryMember(ts[5]);
    assert IsMandatoryMember(ts[3]);
  }

  /** As intended, `Mandatory = $false` leaves it optional, and `Mandatory = $true` makes it mandatory. */
  lemma MandatoryFalseHonoured(ts: seq<Token>)
    requires ts == MandatoryFalseTokens
    ensures !MandatoryFrom(ts, 2, 0, false)
    ensures MandatoryFrom(ts[5 := Token(Variable, "true")], 2, 0, false)
  {
    assert IsMandatoryMember(ts[3]) && AssignedFalse(ts, 3);
    assert !IsMandatoryMember(ts[4]) && !IsMandatoryMember(ts[5]);
    assert MandatoryFrom(ts, 3, 1, false) == MandatoryFrom(ts, 4, 1, false);
    var us := ts[5 := Token(Variable, "true")];
    assert us[..5] == ts[..5] && us[6..] == ts[6..];
    assert IsMandatoryMember(us[3]) && !AssignedFalse(us, 3);
    assert !IsMandatoryMember(us[4]) && !IsMandatoryMember(us[5]);
    assert us[2] == Token(GroupStart, "(") && us[6] == Token(GroupEnd, ")");
    assert MandatoryFrom(us, 6, 1, true);
    assert MandatoryFrom(us, 5, 1, true) == MandatoryFrom(us, 6, 1, true);
    assert MandatoryFrom(us, 4, 1, true) == MandatoryFrom(us, 5, 1, true);
    assert MandatoryFrom(us, 3, 1, false) == MandatoryFrom(us, 4, 1, true);
    assert MandatoryFrom(us, 2, 0, false) == MandatoryFrom(us, 3, 1, false);
  }

  /** A `[Parameter()]` attribute without `Mandatory`: as written mandatory, as intended not. */
  lemma EmptyParameterAttribute()
    ensures MandatoryAsWritten([Token(Attribute, "Parameter"), Token(GroupStart, "("), Token(GroupEnd, ")")], 1, 0, false) == Ok(true)
    ensures !MandatoryFrom([Token(Attribute, "Parameter"), Token(GroupStart, "("), Token(GroupEnd, ")")], 1, 0, false)
  {
  }

  /** `[Parameter(Position =`, cut off after the `=`. */
  const TruncatedTokens: seq<Token> := [Token(Attribute, "Parameter"), Token(GroupStart, "("), Token(Member, "Position"), Token(Operator, "=")]

  /** As written, the look-ahead past a final `=` throws, and so does the whole scrape. */
  lemma TruncatedAttributeThrows()
    ensures MandatoryAsWritten(TruncatedTokens, 1, 0, false) == Err("ArgumentOutOfRangeException")
    ensures Scrape(TruncatedTokens) == Err("ArgumentOutOfRangeException")
  {
    var ts := TruncatedTokens;
    assert !IsMandatoryMember(ts[1]) && !IsMandatoryMember(ts[2]) && !IsMandatoryMember(ts[3]);
    assert IsAssign(ts[3]);
    assert ScanTo(ts, 1) == Err("ArgumentOutOfRangeException");
    ScanStaysErr(ts, 1, |ts|);
  }

  /** As intended, the same tokens leave the flag as it was. */
  lemma TruncatedAttributeUndecided(m: bool)
    ensures MandatoryFrom(TruncatedTokens, 1, 0, m) == m
  {
    var ts := TruncatedTokens;
    assert !IsMandatoryMember(ts[1]) && !IsMandatoryMember(ts[2]) && !IsMandatoryMember(ts[3]);
  }

  /** Where the written scan completes, it agrees with the intended one only when it made no decision. */
  lemma {:induction false} MandatoryUnchangedOutsideGroup(ts: seq<Token>, j: nat, m: bool)
    requires j < |ts| && GroupDelta(ts[j]) <= 0
    ensures MandatoryFrom(ts, j, 0, m) == m
    ensures MandatoryAsWritten(ts, j, 0, m) == Ok(m)
  {
  }

  // ---------------------------------------------------------------------------
  // The parameter type

  predicate NotClosingBracket(c: char)
  {
    c != ']'
  }

  /** After the group ending at `e`: the end, or `]` then the end (`$` also accepts a final newline). */
  predicate EndsAt(c: string, e: nat)
    requires e <= |c|
  {
    e == |c| || (c[e] == ']' && (e + 1 == |c| || (e + 2 == |c| && c[e + 1] == '\n')))
  }

  /** `^\[?(?<1>[^\]]+)\]?$`: the type name with its surrounding brackets removed. */
  function TypeMatch(c: string): (r: Option<string>)
    ensures r.Some? ==> r.value != [] && forall k :: 0 <= k < |r.value| ==> r.value[k] != ']'
  {
    var e1 := if |c| > 0 && c[0] == '[' then Skip(c, 1, NotClosingBracket) else 0;
    if |c| > 0 && c[0] == '[' && e1 > 1 && EndsAt(c, e1) then Some(c[1..e1])
    else
      var e0 := Skip(c, 0, NotClosingBracket);
      if e0 > 0 && EndsAt(c, e0) then Some(c[..e0]) else None
  }

  /** A bracket-free type name is kept bare, or stripped of one pair of brackets. */
  lemma TypeMatchStrips(n: string)
    requires n != [] && n[0] != '['
    requires forall k :: 0 <= k < |n| ==> n[k] != ']'
    ensures TypeMatch(n) == Some(n)
    ensures TypeMatch("[" + n + "]") == Some(n)
  {
    SkipTo(n, 0, |n|, NotClosingBracket);
    assert n[..|n|] == n;
    var c := "[" + n + "]";
    assert forall k :: 1 <= k < |n| + 1 ==> c[k] == n[k - 1];
    SkipTo(c, 1, |n| + 1, NotClosingBracket);
    assert c[1..|n| + 1] == n;
  }

  /** An array type such as `[string[]]` does not match, so it leaves the type unset. */
  lemma ArrayTypeUnmatched()
    ensures TypeMatch("[string[]]") == None
  {
    var c := "[string[]]";
    SkipTo(c, 1, 8, NotClosingBracket);
    SkipTo(c, 0, 8, NotClosingBracket);
  }

  // ---------------------------------------------------------------------------
  // The scanning loop

  datatype ScanState = ScanState(emitted: seq<ParamInfo>, current: ParamInfo, expectDefault: bool)

  /** The named parameter, if it has a name, goes out; an unnamed one is dropped. */
  function Emit(ps: seq<ParamInfo>, p: ParamInfo): (r: seq<ParamInfo>)
    ensures p.name.Some? ==> r == ps + [p]
    ensures p.name.None? ==> r == ps
  {
    if p.name.Some? then ps + [p] else ps
  }

  /** One iteration of the scanning loop, at token `i`; the attribute scan may throw. */
  function Step(ts: seq<Token>, i: nat, s: ScanState): Result<ScanState>
    requires i < |ts|
  {
    var t := ts[i];
    if t.kind == Operator && t.content != "=" then Ok(ScanState(Emit(s.emitted, s.current), NewParam, false))
    else if s.expectDefault then Ok(ScanState(s.emitted, s.current.(defaultValue := Some(t.content)), false))
    else if IsParameterAttribute(t) then
      match MandatoryAsWritten(ts, i + 1, 0, s.current.mandatory)
      case Err(m) => Err(m)
      case Ok(b) => Ok(ScanState(s.emitted, s.current.(mandatory := b), false))
    else
      var typed := if t.kind == TypeName && TypeMatch(t.content).Some? then s.current.(typeName := TypeMatch(t.content)) else s.current;
      var named := if t.kind == Variable then typed.(name := Some(t.content)) else typed;
      Ok(ScanState(s.emitted, named, IsAssign(t)))
  }

  function ScanTo(ts: seq<Token>, n: nat): Result<ScanState>
    requires n <= |ts|
  {
    if n == 0 then Ok(ScanState([], NewParam, false))
    else
      match ScanTo(ts, n - 1)
      case Err(m) => Err(m)
      case Ok(s) => Step(ts, n - 1, s)
  }

  /** The parameters scraped from collected tokens: everything emitted, then the last one. */
  function Scrape(ts: seq<Token>): Result<seq<ParamInfo>>
  {
    match ScanTo(ts, |ts|)
    case Err(m) => Err(m)
    case Ok(s) => Ok(Emit(s.emitted, s.current))
  }

  /** Once an attribute scan has thrown, the later tokens do not matter. */
  lemma {:induction false} ScanStaysErr(ts: seq<Token>, m: nat, n: nat)
    requires m <= n <= |ts| && ScanTo(ts, m).Err?
    ensures ScanTo(ts, n) == ScanTo(ts, m)
    decreases n
  {
    if n > m {
      ScanStaysErr(ts, m, n - 1);
    }
  }

  /** `ScrapeParameters`, with the `Mandatory` scan as written; an attribute scan that throws ends it. */
  method ScrapeParameters(tokens: seq<Token>) returns (params: Result<seq<ParamInfo>>)
    ensures params == Scrape(ParamTokens(tokens))
  {
    var paramTokens := CollectParamTokens(tokens);
    var currentParam := NewParam;
    var expectDefaultValue := false;
    var emitted := [];
    for i := 0 to |paramTokens|
      invariant ScanTo(paramTokens, i) == Ok(ScanState(emitted, currentParam, expectDefaultValue))
    {
      var token := paramTokens[i];
      if token.kind == Operator && token.content != "=" {
        expectDefaultValue := false;
        if currentParam.name.Some? {
          emitted := emitted + [currentParam];
        }
        currentParam := NewParam;
      } else if expectDefaultValue {
        currentParam := currentParam.(defaultValue := Some(token.content));
        expectDefaultValue := false;
      } else if IsParameterAttribute(token) {
        var mandatory := ReadMandatory(paramTokens, i, currentParam.mandatory);
        if mandatory.Err? {
          ScanStaysErr(paramTokens, i + 1, |paramTokens|);
          return Err(mandatory.error);
        }
        currentParam := currentParam.(mandatory := mandatory.value);
      } else {
        if token.kind == TypeName {
          var m := TypeMatch(token.content);
          if m.Some? {
            currentParam := currentParam.(typeName := m);
          }
        }
        if token.kind == Variable {
          currentParam := currentParam.(name := Some(token.content));
        }
        if token.kind == Operator && token.content == "=" {
          expectDefaultValue := true;
        }
      }
    }
    if currentParam.name.Some? {
      emitted := emitted + [currentParam];
    }
    params := Ok(emitted);
  }

  /** Every emitted parameter has a name. */
  lemma {:induction false} ScanEmitsNamed(ts: seq<Token>, n: nat)
    requires n <= |ts|
    ensures ScanTo(ts, n).Ok? ==> forall p :: p in ScanTo(ts, n).value.emitted ==> p.name.Some?
  {
    if n > 0 {
      ScanEmitsNamed(ts, n - 1);
    }
  }

  lemma ScrapeNamed(ts: seq<Token>)
    ensures Scrape(ts).Ok? ==> forall p :: p in Scrape(ts).value ==> p.name.Some?
  {
    ScanEmitsNamed(ts, |ts|);
  }

  /** A non-`=` operator (a comma) emits the current parameter when it is named and starts afresh. */
  lemma SeparatorEmits(ts: seq<Token>, i: nat)
    requires i < |ts| && ts[i].kind == Operator && ts[i].content != "=" && ScanTo(ts, i).Ok?
    ensures ScanTo(ts, i + 1).Ok?
    ensures ScanTo(ts, i + 1).value.current == NewParam && !ScanTo(ts, i + 1).value.expectDefault
    ensures var s := ScanTo(ts, i).value;
      ScanTo(ts, i + 1).value.emitted == if s.current.name.Some? then s.emitted + [s.current] else s.emitted
  {
  }

  /** The token right after `=` becomes the default value, whatever kind it is, unless it is a separator. */
  lemma DefaultAfterAssign(ts: seq<Token>, i: nat)
    requires i + 1 < |ts| && IsAssign(ts[i]) && ScanTo(ts, i).Ok? && !ScanTo(ts, i).value.expectDefault
    requires !(ts[i + 1].kind == Operator && ts[i + 1].content != "=")
    ensures ScanTo(ts, i + 2).Ok?
    ensures ScanTo(ts, i + 2).value.current.defaultValue == Some(ts[i + 1].content)
    ensures ScanTo(ts, i + 2).value.current.name == ScanTo(ts, i).value.current.name
    ensures !ScanTo(ts, i + 2).value.expectDefault
  {
    assert !IsParameterAttribute(ts[i]);
    assert ScanTo(ts, i + 1).Ok? && ScanTo(ts, i + 1).value.expectDefault;
  }

  /** A variable token names the current parameter; a type token sets its type. */
  lemma VariableNames(ts: seq<Token>, i: nat)
    requires i < |ts| && ts[i].kind == Variable && ScanTo(ts, i).Ok? && !ScanTo(ts, i).value.expectDefault
    ensures ScanTo(ts, i + 1).Ok?
    ensures ScanTo(ts, i + 1).value.current.name == Some(ts[i].content)
    ensures ScanTo(ts, i + 1).value.emitted == ScanTo(ts, i).value.emitted
  {
  }

  lemma TypeSets(ts: seq<Token>, i: nat)
    requires i < |ts| && ts[i].kind == TypeName && ScanTo(ts, i).Ok? && !ScanTo(ts, i).value.expectDefault
    ensures ScanTo(ts, i + 1).Ok?
    ensures TypeMatch(ts[i].content).Some? ==> ScanTo(ts, i + 1).value.current.typeName == TypeMatch(ts[i].content)
    ensures TypeMatch(ts[i].content).None? ==> ScanTo(ts, i + 1).value.current.typeName == ScanTo(ts, i).value.current.typeName
  {
  }

  /**
   * A `[Parameter(...)]` attribute sets the current parameter's flag to what
   * the written attribute scan yields, or the whole scan throws with it.
   */
  lemma AttributeSetsMandatory(ts: seq<Token>, i: nat)
    requires i < |ts| && IsParameterAttribute(ts[i]) && ScanTo(ts, i).Ok? && !ScanTo(ts, i).value.expectDefault
    ensures var w := MandatoryAsWritten(ts, i + 1, 0, ScanTo(ts, i).value.current.mandatory);
      (w.Err? ==> Scrape(ts) == Err(w.error)) &&
      (w.Ok? ==> ScanTo(ts, i + 1) == Ok(ScanTo(ts, i).value.(current := ScanTo(ts, i).value.current.(mandatory := w.value))))
  {
    var w := MandatoryAsWritten(ts, i + 1, 0, ScanTo(ts, i).value.current.mandatory);
    assert !(ts[i].kind == Operator);
    if w.Err? {
      assert ScanTo(ts, i + 1) == Err(w.error);
      ScanStaysErr(ts, i + 1, |ts|);
    }
  }

  /** `param([switch]$Force, $Name = "x")`, as the tokenizer delivers it. */
  const ExampleTokens: seq<Token> := [
    Token(GroupStart, "("), Token(TypeName, "switch"), Token(Variable, "Force"), Token(Operator, ","),
    Token(Variable, "Name"), Token(Operator, "="), Token(OtherKind, "x"), Token(GroupEnd, ")")]

  lemma ScrapeExample(ts: seq<Token>)
    requires ts == ExampleTokens
    ensures Scrape(ts) == Ok([
      ParamInfo(Some("Force"), Some("switch"), None, false),
      ParamInfo(Some("Name"), None, Some("x"), false)])
  {
    var force := ParamInfo(Some("Force"), Some("switch"), None, false);
    ScrapeExampleFirst(ts);
    var s4 := ScanState([force], NewParam, false);
    var s5 := ScanState([force], NewParam.(name := Some("Name")), false);
    ScanNext(ts, 4, s4, s5);
    var s6 := ScanState([force], NewParam.(name := Some("Name")), true);
    ScanNext(ts, 5, s5, s6);
    var s7 := ScanState([force], ParamInfo(Some("Name"), None, Some("x"), false), false);
    ScanNext(ts, 6, s6, s7);
    ScanNext(ts, 7, s7, s7);
    assert Emit(s7.emitted, s7.current) == [force, s7.current];
  }

  lemma ScrapeExampleFirst(ts: seq<Token>)
    requires ts == ExampleTokens
    ensures ScanTo(ts, 4) == Ok(ScanState([ParamInfo(Some("Force"), Some("switch"), None, false)], NewParam, false))
  {
    var force := ParamInfo(Some("Force"), Some("switch"), None, false);
    ScrapeExampleType(ts);
    var s2 := ScanState([], NewParam.(typeName := Some("switch")), false);
    var s3 := ScanState([], force, false);
    ScanNext(ts, 2, s2, s3);
    assert Emit([], force) == [force];
    ScanNext(ts, 3, s3, ScanState([force], NewParam, false));
  }

  lemma ScrapeExampleType(ts: seq<Token>)
    requires ts == ExampleTokens
    ensures ScanTo(ts, 2) == Ok(ScanState([], NewParam.(typeName := Some("switch")), false))
  {
    TypeMatchStrips("switch");
    var s0 := ScanState([], NewParam, false);
    ScanNext(ts, 0, s0, s0);
    ScanNext(ts, 1, s0, ScanState([], NewParam.(typeName := Some("switch")), false));
  }

  /** One more token: the scan so far, then one step. */
  lemma ScanNext(ts: seq<Token>, i: nat, s: ScanState, s': ScanState)
    requires i < |ts| && ScanTo(ts, i) == Ok(s) && Step(ts, i, s) == Ok(s')
    ensures ScanTo(ts, i + 1) == Ok(s')
  {
  }

  // ---------------------------------------------------------------------------
  // Parse: the help block and the join

  /** What the documentation expression yields per match: `.NAME param` and the collapsed content. */
  datatype RawBlock = RawBlock(name: string, param: Option<string>, content: Option<string>)

  /** `PowerShellParameterInfo`. */
  datatype ParameterInfo = ParameterInfo(
    name: string, description: Option<string>, defaultValue: Option<string>,
    isBooleanOrSwitch: bool, isOutput: bool, mandatory: bool)

  datatype ScriptInfo = ScriptInfo(
    description: Option<string>, parameters: seq<ParameterInfo>,
    configParameters: Option<seq<PSConfigParameterInfo.ConfigParameter>>, executionModeVariableName: Option<string>)

  predicate NotParamKeyword(t: Token)
  {
    !(t.kind == Keyword && EqIC(t.content, "param"))
  }

  /** The number of tokens before the `param` keyword. */
  function ParamIndex(tokens: seq<Token>): (r: nat)
    ensures r <= |tokens|
    ensures r < |tokens| ==> tokens[r].kind == Keyword && EqIC(tokens[r].content, "param")
    ensures forall k :: 0 <= k < r ==> NotParamKeyword(tokens[k])
  {
    Skip(tokens, 0, NotParamKeyword)
  }

  predicate IsDocComment(t: Token)
  {
    t.kind == Comment && StartsWith(t.content, "<#") && EndsWith(t.content, "#>")
  }

  predicate LastDocComment(tokens: seq<Token>, n: nat, k: nat)
    requires n <= |tokens|
  {
    k < n && IsDocComment(tokens[k]) && forall k' :: k < k' < n ==> !IsDocComment(tokens[k'])
  }

  /** The last help comment among the first `n` tokens. */
  function DocComment(tokens: seq<Token>, n: nat): (r: Option<string>)
    requires n <= |tokens|
    ensures r.Some? <==> exists k :: 0 <= k < n && IsDocComment(tokens[k])
    ensures r.Some? ==> exists k: nat :: LastDocComment(tokens, n, k) && tokens[k].content == r.value
  {
    if n == 0 then None
    else if IsDocComment(tokens[n - 1]) then Some(tokens[n - 1].content)
    else DocComment(tokens, n - 1)
  }

  /** The help blocks with content, as `DocBlock`s. */
  function Blocks(raw: seq<RawBlock>): (r: seq<PSConfigParameterInfo.DocBlock>)
    ensures |r| <= |raw|
    decreases |raw|
  {
    if raw == [] then []
    else
      (if raw[0].content.Some? then [PSConfigParameterInfo.DocBlock(raw[0].name, raw[0].param, raw[0].content.value)] else [])
      + Blocks(raw[1..])
  }

  function FirstContent(bs: seq<PSConfigParameterInfo.DocBlock>): (r: Option<string>)
    ensures r.Some? <==> bs != []
    ensures r.Some? ==> r.value == bs[0].content
  {
    if bs == [] then None else Some(bs[0].content)
  }

  /** The `.PARAMETER` blocks whose parameter is `name`, ignoring case. */
  function ParameterBlocks(bs: seq<PSConfigParameterInfo.DocBlock>, name: string): (r: seq<PSConfigParameterInfo.DocBlock>)
    ensures forall b :: b in r ==> b in bs && EqIC(b.name, "PARAMETER") && EqICOpt(b.param, Some(name))
    decreases |bs|
  {
    if bs == [] then []
    else
      (if EqIC(bs[0].name, "PARAMETER") && EqICOpt(bs[0].param, Some(name)) then [bs[0]] else [])
      + ParameterBlocks(bs[1..], name)
  }

  function Describe(p: ParamInfo, bs: seq<PSConfigParameterInfo.DocBlock>): ParameterInfo
  {
    var name := p.name.GetOr("");
    ParameterInfo(name, FirstContent(ParameterBlocks(bs, name)), p.defaultValue, IsBooleanOrSwitch(p), IsOutput(p), p.mandatory)
  }

  function Undescribed(p: ParamInfo): ParameterInfo
  {
    ParameterInfo(p.name.GetOr(""), None, p.defaultValue, IsBooleanOrSwitch(p), IsOutput(p), false)
  }

  /** The parameters scraped from the tokens after the `param` keyword; the scrape may throw. */
  function ScrapedParameters(tokens: seq<Token>): Result<seq<ParamInfo>>
  {
    var i := ParamIndex(tokens);
    Scrape(ParamTokens(if i < |tokens| then tokens[i + 1..] else []))
  }

  /** The help blocks of a help comment of at least four characters, its delimiters cut off. */
  function HelpBlocks(doc: string, matches: string -> seq<RawBlock>): seq<PSConfigParameterInfo.DocBlock>
    requires |doc| >= 4
  {
    Blocks(matches(doc[2..|doc| - 2]))
  }

  /**
   * `Parse`. `matches` stands for the documentation expression applied to
   * the help text. The parameters are scraped first, so a throwing attribute
   * scan wins; then a help comment of three characters, `<#>`, which both
   * starts with `<#` and ends with `#>`, throws when both delimiters are cut
   * off; then help without any configuration key throws in
   * `FromDocumentationBlocks`.
   */
  function Parse(tokens: seq<Token>, matches: string -> seq<RawBlock>): (r: Result<ScriptInfo>)
    ensures var doc := DocComment(tokens, ParamIndex(tokens));
      r.Err? <==> (ScrapedParameters(tokens).Err? ||
        (doc.Some? && (|doc.value| < 4 || PSConfigParameterInfo.MaxCount(HelpBlocks(doc.value, matches), PSConfigParameterInfo.Names).None?)))
    ensures ScrapedParameters(tokens).Err? ==> r == Err(ScrapedParameters(tokens).error)
    ensures r.Ok? ==> |r.value.parameters| == |ScrapedParameters(tokens).value|
    ensures r.Ok? ==> forall k :: 0 <= k < |r.value.parameters| ==>
      Some(r.value.parameters[k].name) == ScrapedParameters(tokens).value[k].name
      && r.value.parameters[k].defaultValue == ScrapedParameters(tokens).value[k].defaultValue
  {
    match ScrapedParameters(tokens)
    case Err(m) => Err(m)
    case Ok(params) =>
      ScrapeNamed(ParamTokens(var i := ParamIndex(tokens); if i < |tokens| then tokens[i + 1..] else []));
      var doc := DocComment(tokens, ParamIndex(tokens));
      if doc.None? then
        Ok(ScriptInfo(None, seq(|params|, k requires 0 <= k < |params| => Undescribed(params[k])), None, None))
      else if |doc.value| < 4 then Err("ArgumentOutOfRangeException")
      else
        var bs := HelpBlocks(doc.value, matches);
        match PSConfigParameterInfo.GroupCountAsWritten(bs)
        case Err(m) => Err(m)
        case Ok(_) =>
          Ok(ScriptInfo(
            FirstContent(PSConfigParameterInfo.Named(bs, "SYNOPSIS") + PSConfigParameterInfo.Named(bs, "DESCRIPTION")),
            seq(|params|, k requires 0 <= k < |params| => Describe(params[k], bs)),
            Some(PSConfigParameterInfo.Groups(bs)),
            FirstContent(PSConfigParameterInfo.Named(bs, "AHEXECMODE"))))
  }

  /** Without a help comment, a scrape that does not throw gives no descriptions, no configuration groups and nothing mandatory. */
  lemma ParseWithoutHelp(tokens: seq<Token>, matches: string -> seq<RawBlock>)
    requires DocComment(tokens, ParamIndex(tokens)).None?
    ensures Parse(tokens, matches).Ok? <==> ScrapedParameters(tokens).Ok?
    ensures Parse(tokens, matches).Ok? ==> var info := Parse(tokens, matches).value;
      info.description.None? && info.configParameters.None? && info.executionModeVariableName.None? &&
      forall p :: p in info.parameters ==> p.description.None? && !p.mandatory
  {
  }

  /** With a help comment, the description is the first synopsis, else the first description block. */
  lemma ParseDescription(tokens: seq<Token>, matches: string -> seq<RawBlock>)
    requires Parse(tokens, matches).Ok? && DocComment(tokens, ParamIndex(tokens)).Some?
    ensures var doc := DocComment(tokens, ParamIndex(tokens)).value;
      var bs := HelpBlocks(doc, matches);
      var syn := PSConfigParameterInfo.Named(bs, "SYNOPSIS");
      var desc := PSConfigParameterInfo.Named(bs, "DESCRIPTION");
      Parse(tokens, matches).value.description ==
        (if syn != [] then Some(syn[0].content) else if desc != [] then Some(desc[0].content) else None)
  {
    var doc := DocComment(tokens, ParamIndex(tokens)).value;
    var bs := HelpBlocks(doc, matches);
    var syn := PSConfigParameterInfo.Named(bs, "SYNOPSIS");
    if syn == [] {
      assert syn + PSConfigParameterInfo.Named(bs, "DESCRIPTION") == PSConfigParameterInfo.Named(bs, "DESCRIPTION");
    }
  }

  /**
   * With a help comment, each parameter's description is the first
   * `.PARAMETER` block naming it ignoring case, it keeps the scraped
   * `Mandatory` flag, and the configuration groups are those of the help.
   */
  lemma ParseParameterDescriptions(tokens: seq<Token>, matches: string -> seq<RawBlock>, k: nat)
    requires Parse(tokens, matches).Ok? && DocComment(tokens, ParamIndex(tokens)).Some?
    requires k < |Parse(tokens, matches).value.parameters|
    ensures var doc := DocComment(tokens, ParamIndex(tokens)).value;
      var bs := HelpBlocks(doc, matches);
      var p := Parse(tokens, matches).value.parameters[k];
      var ds := ParameterBlocks(bs, p.name);
      p.description == (if ds == [] then None else Some(ds[0].content)) &&
      (forall b :: b in ds ==> EqICOpt(b.param, Some(p.name))) &&
      p.mandatory == ScrapedParameters(tokens).value[k].mandatory &&
      Parse(tokens, matches).value.configParameters == Some(PSConfigParameterInfo.Groups(bs))
  {
  }
}
