/**
 * The `SuccessExitCode` comparator: an optional operator followed by a
 * number, matched by `^\s*(?<1>[=<>!])*\s*(?<2>[0-9]+)\s*$`. Only the last
 * repetition of group 1 is kept, so ">=" reads as "=" and "!=" as "=";
 * an empty or unknown operator becomes "==".
 */
module ExitCodeComparator {
  import opened Common

  datatype Comparator = Comparator(op: string, value: int)

  const ValidOperators: seq<string> := ["=", "==", "!=", "<", ">", "<=", ">="]

  predicate IsOpChar(c: char)
  {
    c == '=' || c == '<' || c == '>' || c == '!'
  }

  /** The pieces a successful match splits the input into. */
  datatype Parts = Parts(lead: string, ops: string, gap: string, digits: string, trail: string)

  predicate WellFormed(p: Parts)
  {
    IsBlank(p.lead) && (forall i :: 0 <= i < |p.ops| ==> IsOpChar(p.ops[i])) &&
    IsBlank(p.gap) && p.digits != [] && AllDigits(p.digits) && IsBlank(p.trail) &&
    // with no operator, all leading white space belongs to `lead`
    (p.ops == [] ==> p.gap == [])
  }

  function Render(p: Parts): string
  {
    p.lead + p.ops + p.gap + p.digits + p.trail
  }

  /** The regular expression, as a deterministic scan. */
  function Match(s: string): (r: Option<Parts>)
    ensures r.Some? ==> WellFormed(r.value) && Render(r.value) == s
  {
    var i := Skip(s, 0, IsWhite);
    var j := Skip(s, i, IsOpChar);
    var k := Skip(s, j, IsWhite);
    var l := Skip(s, k, IsDigit);
    if k < l && Skip(s, l, IsWhite) == |s| then
      var p := Parts(s[..i], s[i..j], s[j..k], s[k..l], s[l..]);
      FiveSlices(s, i, j, k, l);
      SliceAll(s, 0, i, IsWhite);
      SliceAll(s, i, j, IsOpChar);
      SliceAll(s, j, k, IsWhite);
      SliceAll(s, k, l, IsDigit);
      SliceAll(s, l, |s|, IsWhite);
      Some(p)
    else None
  }

  /** The operator group 1 leaves behind, after the "==" default. */
  function OperatorOf(ops: string): (op: string)
    ensures op in ValidOperators
  {
    if ops == [] then "=="
    else
      var c := ops[|ops| - 1];
      if c == '=' then "=" else if c == '<' then "<" else if c == '>' then ">" else "=="
  }

  /**
   * `ExitCodeComparator.TryParse`: `Ok(None)` for blank or non-matching text,
   * `Err` when `int.Parse` of the digits overflows.
   */
  function TryParse(s: Option<string>): (r: Result<Option<Comparator>>)
    ensures IsNullOrWhiteSpace(s) ==> r == Ok(None)
    ensures r.Ok? && r.value.Some? ==> r.value.value.op in ["=", "==", "<", ">"]
    ensures r.Ok? && r.value.Some? ==> 0 <= r.value.value.value <= Int32Max
  {
    if IsNullOrWhiteSpace(s) then Ok(None)
    else
      match Match(s.value)
      case None => Ok(None)
      case Some(p) =>
        var v := DigitsValue(p.digits);
        if v > Int32Max then Err("OverflowException")
        else Ok(Some(Comparator(OperatorOf(p.ops), v)))
  }

  /** `Evaluate`: the integer relation the operator names; false for anything else. */
  function Evaluate(c: Comparator, exitCode: int): (r: bool)
    ensures c.op !in ValidOperators ==> !r
  {
    match c.op
    case "=" => exitCode == c.value
    case "==" => exitCode == c.value
    case "!=" => exitCode != c.value
    case "<" => exitCode < c.value
    case ">" => exitCode > c.value
    case "<=" => exitCode <= c.value
    case ">=" => exitCode >= c.value
    case _ => false
  }

  lemma RenderSlices(p: Parts)
    ensures var s := Render(p);
      var i := |p.lead|;
      var j := i + |p.ops|;
      var k := j + |p.gap|;
      var l := k + |p.digits|;
      l + |p.trail| == |s| &&
      s[0..i] == p.lead && s[i..j] == p.ops && s[j..k] == p.gap && s[k..l] == p.digits && s[l..|s|] == p.trail
  {
  }

  /** The scan recovers every piece of a well-formed input. */
  lemma MatchRender(p: Parts)
    requires WellFormed(p)
    ensures Match(Render(p)) == Some(p)
  {
    var s := Render(p);
    var i := |p.lead|;
    var j := i + |p.ops|;
    var k := j + |p.gap|;
    var l := k + |p.digits|;
    RenderSlices(p);
    PieceAll(s, 0, i, p.lead, IsWhite);
    PieceAll(s, i, j, p.ops, IsOpChar);
    PieceAll(s, j, k, p.gap, IsWhite);
    PieceAll(s, k, l, p.digits, IsDigit);
    PieceAll(s, l, |s|, p.trail, IsWhite);
    assert s[k] == p.digits[0] by { assert s[k..l][0] == s[k]; }
    assert l < |s| ==> s[l] == p.trail[0] by { if l < |s| { assert s[l..|s|][0] == s[l]; } }
    assert i < |s| && (i == j || IsOpChar(s[i]));
    assert !IsOpChar(s[j]) by {
      if j < k { assert IsWhite(s[j]); }
    }
    SkipTo(s, 0, i, IsWhite);
    SkipTo(s, i, j, IsOpChar);
    SkipTo(s, j, k, IsWhite);
    SkipTo(s, k, l, IsDigit);
    SkipTo(s, l, |s|, IsWhite);
    assert s[..i] == s[0..i] && s[l..] == s[l..|s|];
  }

  /**
   * Parsing is exactly the grammar: a well-formed text parses to the operator
   * its last operator character names and to the value of its digits.
   */
  lemma TryParseRender(p: Parts)
    requires WellFormed(p)
    ensures DigitsValue(p.digits) <= Int32Max ==>
      TryParse(Some(Render(p))) == Ok(Some(Comparator(OperatorOf(p.ops), DigitsValue(p.digits))))
    ensures DigitsValue(p.digits) > Int32Max ==> TryParse(Some(Render(p))).Err?
  {
    MatchRender(p);
    assert Render(p) != [] by { assert |Render(p)| >= |p.digits| > 0; }
    assert !IsNullOrWhiteSpace(Some(Render(p))) by {
      var s := Render(p);
      assert s[|p.lead| + |p.ops| + |p.gap|] == p.digits[0];
    }
  }

  /** Whatever parses is a well-formed text, with the operator and value read from it. */
  lemma TryParseSound(s: string)
    requires TryParse(Some(s)).Ok? && TryParse(Some(s)).value.Some?
    ensures exists p ::
      WellFormed(p) && Render(p) == s &&
      TryParse(Some(s)).value.value == Comparator(OperatorOf(p.ops), DigitsValue(p.digits))
  {
    var p := Match(s).value;
    assert WellFormed(p) && Render(p) == s;
  }

  lemma RenderBare(ops: string, digits: string)
    ensures Render(Parts("", ops, "", digits, "")) == ops + digits
  {
    var e: string := "";
    assert e + ops == ops;
    assert ops + e == ops;
    assert digits + e == digits;
  }

  /**
   * The repetition quirk: a two-character operator ending in '=' (">=", "<=",
   * "!=", "==") reads as "=", that is, as equality.
   */
  lemma CollapsedOperators(first: char, digits: string)
    requires IsOpChar(first) && digits != [] && AllDigits(digits) && DigitsValue(digits) <= Int32Max
    ensures TryParse(Some([first, '='] + digits)) == Ok(Some(Comparator("=", DigitsValue(digits))))
  {
    var ops := [first, '='];
    var p := Parts("", ops, "", digits, "");
    assert forall i :: 0 <= i < |ops| ==> IsOpChar(ops[i]);
    assert WellFormed(p);
    RenderBare(ops, digits);
    assert OperatorOf(ops) == "=";
    TryParseRender(p);
  }

  /** "!" is not an operator of its own and falls back to "==". */
  lemma BangMeansEqual(digits: string)
    requires digits != [] && AllDigits(digits) && DigitsValue(digits) <= Int32Max
    ensures TryParse(Some("!" + digits)) == Ok(Some(Comparator("==", DigitsValue(digits))))
  {
    var ops := "!";
    var q := Parts("", ops, "", digits, "");
    assert forall i :: 0 <= i < |ops| ==> IsOpChar(ops[i]);
    assert WellFormed(q);
    RenderBare(ops, digits);
    assert OperatorOf(ops) == "==";
    TryParseRender(q);
  }

  /** Each of the seven operators means its integer relation. */
  lemma EvaluateRelations(v: int, x: int)
    ensures Evaluate(Comparator("=", v), x) == (x == v)
    ensures Evaluate(Comparator("==", v), x) == (x == v)
    ensures Evaluate(Comparator("!=", v), x) == (x != v)
    ensures Evaluate(Comparator("<", v), x) == (x < v)
    ensures Evaluate(Comparator(">", v), x) == (x > v)
    ensures Evaluate(Comparator("<=", v), x) == (x <= v)
    ensures Evaluate(Comparator(">=", v), x) == (x >= v)
  {
  }

  /** A parsed comparator only ever tests equality, less-than or greater-than. */
  lemma ParsedEvaluate(s: Option<string>, x: int)
    requires TryParse(s).Ok? && TryParse(s).value.Some?
    ensures var c := TryParse(s).value.value;
      Evaluate(c, x) == (if c.op == "<" then x < c.value else if c.op == ">" then x > c.value else x == c.value)
  {
  }
}
