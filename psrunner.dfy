/**
 * `PowerShellScriptRunner`: how host values become PowerShell values, how
 * the lines a script writes are told apart (out-variable and process-id
 * sentinels versus ordinary output), how the JSON of an out-variable is
 * read back, which processes are terminated on disposal, and which
 * variable names a script mentions.
 */
module PowerShellScriptRunner {
  import opened Common
  import opened RuntimeValues

  const OutVarPrefix: string := "!INEDO_VAR!"
  const ProcessIdPrefix: string := "!INEDO_PS_PID!"

  // ---------------------------------------------------------------------------
  // ConvertToPSValue

  /** The integral .NET types a `[type::NAME]` cast can produce. */
  datatype IntKind = Int32 | UInt32 | Int64 | UInt64 | Byte | SByte | Int16 | UInt16

  /** The floating-point types a cast can produce; their parsing is not modelled. */
  datatype RealKind = Single | Double | DecimalKind

  /** The object handed to PowerShell. */
  datatype PSValue =
    | PSInteger(kind: IntKind, n: int)
    | PSBool(b: bool)
    | PSString(s: string)
    | PSReal(realKind: RealKind, text: string)
    | PSCredential(serialized: string)
    | PSArray(elements: seq<PSValue>)
    | PSHashtable(entries: seq<(string, PSValue)>)

  function MinOf(k: IntKind): int
  {
    match k
    case Int32 => -0x8000_0000
    case UInt32 => 0
    case Int64 => -0x8000_0000_0000_0000
    case UInt64 => 0
    case Byte => 0
    case SByte => -0x80
    case Int16 => -0x8000
    case UInt16 => 0
  }

  function MaxOf(k: IntKind): int
  {
    match k
    case Int32 => 0x7FFF_FFFF
    case UInt32 => 0xFFFF_FFFF
    case Int64 => 0x7FFF_FFFF_FFFF_FFFF
    case UInt64 => 0xFFFF_FFFF_FFFF_FFFF
    case Byte => 0xFF
    case SByte => 0x7F
    case Int16 => 0x7FFF
    case UInt16 => 0xFFFF
  }

  /** What a lower-cased cast name asks for. */
  datatype CastTarget = IntTarget(kind: IntKind) | BoolTarget | StringTarget | RealTarget(rk: RealKind) | NoTarget

  function CastTargetOf(name: string): CastTarget
  {
    if name in ["int", "int32", "sint32", "system.int32"] then IntTarget(Int32)
    else if name in ["uint", "uint32", "system.uint32"] then IntTarget(UInt32)
    else if name in ["bool", "boolean", "system.boolean"] then BoolTarget
    else if name in ["long", "int64", "system.int64"] then IntTarget(Int64)
    else if name in ["ulong", "uint64", "system.uint64"] then IntTarget(UInt64)
    else if name in ["string", "system.string"] then StringTarget
    else if name in ["float", "single", "system.single"] then RealTarget(Single)
    else if name in ["double", "system.double"] then RealTarget(Double)
    else if name in ["decimal", "system.decimal"] then RealTarget(DecimalKind)
    else if name in ["byte", "uint8", "system.byte"] then IntTarget(Byte)
    else if name in ["int8", "sbyte", "system.sbyte"] then IntTarget(SByte)
    else if name in ["short", "int16", "system.int16"] then IntTarget(Int16)
    else if name in ["ushort", "uint16", "system.uint16"] then IntTarget(UInt16)
    else NoTarget
  }

  /**
   * The regular expression `^\[type::(NAME)\](VALUE)$`: NAME runs up to the
   * first `]` and is not empty; VALUE is the non-empty rest, with no line
   * break except one final line break, which it does not include.
   */
  function TypeCast(s: string): (r: Option<(string, string)>)
    ensures r.Some? ==> r.value.0 != [] && ']' !in r.value.0 && r.value.1 != [] && '\n' !in r.value.1
    ensures r.Some? ==> s == "[type::" + r.value.0 + "]" + r.value.1 || s == "[type::" + r.value.0 + "]" + r.value.1 + "\n"
  {
    if !StartsWith(s, "[type::") then None
    else
      var k := IndexOfCharFrom(s, ']', 7);
      if k <= 7 then None
      else
        var rest := s[k + 1..];
        var v := if rest != [] && rest[|rest| - 1] == '\n' then rest[..|rest| - 1] else rest;
        if v == [] || '\n' in v then None
        else
          assert s == s[..7] + s[7..k] + "]" + rest;
          Some((s[7..k], v))
  }

  /** A cast reads back the name and value it was written with. */
  lemma TypeCastParts(name: string, v: string)
    requires name != [] && ']' !in name && v != [] && '\n' !in v
    ensures TypeCast("[type::" + name + "]" + v) == Some((name, v))
  {
    var s := "[type::" + name + "]" + v;
    assert s[..7] == "[type::";
    var k := 7 + |name|;
    assert s[k] == ']' && forall j :: 7 <= j < k ==> s[j] == name[j - 7];
    assert IndexOfCharFrom(s, ']', 7) == k;
    assert s[k + 1..] == v;
    assert s[7..k] == name;
  }

  /** The value a successful cast produces, or none when the switch falls through. */
  function CastValue(s: string, parsesReal: (RealKind, string) -> bool): (r: Option<PSValue>)
    ensures r.Some? ==> TypeCast(s).Some?
  {
    match TypeCast(s)
    case None => None
    case Some(cast) =>
      var v := cast.1;
      match CastTargetOf(LowerStr(cast.0))
      case IntTarget(k) =>
        var n := TryParseInRange(v, MinOf(k), MaxOf(k));
        if n.Some? then Some(PSInteger(k, n.value)) else None
      case BoolTarget =>
        var b := TryParseBool(Some(v));
        if b.Some? then Some(PSBool(b.value)) else None
      case StringTarget => Some(PSString(v))
      case RealTarget(rk) => if parsesReal(rk, v) then Some(PSReal(rk, v)) else None
      case NoTarget => None
  }

  /** Without a usable cast: a 32-bit integer, then `true`/`false` in any case, then the text itself. */
  function Fallback(s: string): (r: PSValue)
    ensures TryParseInt32(s).Some? ==> r == PSInteger(Int32, TryParseInt32(s).value)
    ensures TryParseInt32(s).None? && EqIC(s, "true") ==> r == PSBool(true)
    ensures TryParseInt32(s).None? && EqIC(s, "false") ==> r == PSBool(false)
    ensures TryParseInt32(s).None? && !EqIC(s, "true") && !EqIC(s, "false") ==> r == PSString(s)
  {
    var i := TryParseInt32(s);
    if i.Some? then PSInteger(Int32, i.value)
    else if EqIC(s, "true") then PSBool(true)
    else if EqIC(s, "false") then PSBool(false)
    else PSString(s)
  }

  /** A scalar's conversion; `credentialPrefix` marks a serialized credential. */
  function ConvertScalar(s: string, credentialPrefix: string, parsesReal: (RealKind, string) -> bool): (r: PSValue)
    ensures StartsWith(s, credentialPrefix) ==> r == PSCredential(s[|credentialPrefix|..])
    ensures !StartsWith(s, credentialPrefix) && CastValue(s, parsesReal).Some? ==> r == CastValue(s, parsesReal).value
    ensures !StartsWith(s, credentialPrefix) && CastValue(s, parsesReal).None? ==> r == Fallback(s)
  {
    if StartsWith(s, credentialPrefix) then PSCredential(s[|credentialPrefix|..])
    else
      var c := CastValue(s, parsesReal);
      if c.Some? then c.value else Fallback(s)
  }

  /** `hashTable[key] = value` for each pair in turn. */
  function Hashtable(pairs: seq<(string, PSValue)>): seq<(string, PSValue)>
    decreases |pairs|
  {
    if pairs == [] then []
    else Set(false, Hashtable(pairs[..|pairs| - 1]), pairs[|pairs| - 1].0, pairs[|pairs| - 1].1)
  }

  /** With distinct keys every assignment adds a new entry, so the table holds the pairs as given. */
  lemma {:induction false} HashtableDistinct(pairs: seq<(string, PSValue)>)
    requires UniqueKeys(false, pairs)
    ensures Hashtable(pairs) == pairs
    decreases |pairs|
  {
    if pairs != [] {
      var init := pairs[..|pairs| - 1];
      HashtableDistinct(init);
      var last := pairs[|pairs| - 1];
      assert FindKey(false, init, last.0) == -1;
      assert init + [last] == pairs;
    }
  }

  /**
   * `ConvertToPSValue`: a scalar by `ConvertScalar` of its text (null read
   * as ""), a vector element by element into an array of the same length,
   * a map entry by entry into a hashtable.
   */
  function ConvertToPSValue(value: RuntimeValue, credentialPrefix: string, parsesReal: (RealKind, string) -> bool): (r: PSValue)
    ensures value.Scalar? ==> r == ConvertScalar(ScalarText(value), credentialPrefix, parsesReal)
    ensures value.Vector? ==> r.PSArray? && |r.elements| == |value.items|
    ensures value.Map? ==> r.PSHashtable?
    decreases value
  {
    match value
    case Scalar(_) => ConvertScalar(ScalarText(value), credentialPrefix, parsesReal)
    case Vector(items) =>
      PSArray(seq(|items|, i requires 0 <= i < |items| => ConvertToPSValue(items[i], credentialPrefix, parsesReal)))
    case Map(entries) =>
      PSHashtable(Hashtable(seq(|entries|, i requires 0 <= i < |entries| =>
        (entries[i].0, ConvertToPSValue(entries[i].1, credentialPrefix, parsesReal)))))
  }

  /** Each array element is the conversion of the vector element at the same index. */
  lemma ConvertVector(items: seq<RuntimeValue>, credentialPrefix: string, parsesReal: (RealKind, string) -> bool, i: nat)
    requires i < |items|
    ensures ConvertToPSValue(Vector(items), credentialPrefix, parsesReal).elements[i] == ConvertToPSValue(items[i], credentialPrefix, parsesReal)
  {
  }

  /** A map with distinct keys gives a hashtable with the same keys, in order, each holding the converted value. */
  lemma ConvertMap(entries: seq<(string, RuntimeValue)>, credentialPrefix: string, parsesReal: (RealKind, string) -> bool)
    requires UniqueKeys(false, entries)
    ensures var t := ConvertToPSValue(Map(entries), credentialPrefix, parsesReal).entries;
      |t| == |entries| &&
      forall i :: 0 <= i < |entries| ==> t[i].0 == entries[i].0 && t[i].1 == ConvertToPSValue(entries[i].1, credentialPrefix, parsesReal)
  {
    var pairs := seq(|entries|, i requires 0 <= i < |entries| =>
      (entries[i].0, ConvertToPSValue(entries[i].1, credentialPrefix, parsesReal)));
    HashtableDistinct(pairs);
  }

  /** The value of a well-formed cast, by the target its lower-cased name selects. */
  lemma CastOf(s: string, name: string, v: string, parsesReal: (RealKind, string) -> bool)
    requires TypeCast(s) == Some((name, v))
    ensures CastTargetOf(LowerStr(name)) == StringTarget ==> CastValue(s, parsesReal) == Some(PSString(v))
    ensures CastTargetOf(LowerStr(name)).IntTarget? ==>
      var k := CastTargetOf(LowerStr(name)).kind;
      CastValue(s, parsesReal) == (if TryParseInRange(v, MinOf(k), MaxOf(k)).Some? then Some(PSInteger(k, TryParseInRange(v, MinOf(k), MaxOf(k)).value)) else None)
  {
  }

  /** `[type::string]v` (the name in any case) passes `v` through untouched. */
  lemma CastToString(name: string, v: string, credentialPrefix: string, parsesReal: (RealKind, string) -> bool)
    requires LowerStr(name) == "string" || LowerStr(name) == "system.string"
    requires ']' !in name && v != [] && '\n' !in v
    requires !StartsWith("[type::" + name + "]" + v, credentialPrefix)
    ensures ConvertScalar("[type::" + name + "]" + v, credentialPrefix, parsesReal) == PSString(v)
  {
    var s := "[type::" + name + "]" + v;
    assert name != [] by { assert |LowerStr(name)| > 0; }
    TypeCastParts(name, v);
    assert CastTargetOf(LowerStr(name)) == StringTarget;
    CastOf(s, name, v, parsesReal);
  }

  /** Text that starts with neither a sign, a digit nor white space is not an integer. */
  lemma NotInteger(s: string)
    requires s != [] && !IsWhite(s[0]) && !IsWhite(s[|s| - 1]) && !IsDigit(s[0]) && s[0] != '-' && s[0] != '+'
    ensures ParseInteger(s).None?
  {
    TrimOfTrimmed(s);
    assert !AllDigits(s);
  }

  /** A written integer has no line break and is not empty. */
  lemma IntToStringShape(n: int)
    ensures IntToString(n) != [] && '\n' !in IntToString(n) && IntToString(n)[0] != '['
  {
    var d := IntToString(n);
    if n < 0 {
      assert d == "-" + NatToString(-n);
      assert forall j :: 1 <= j < |d| ==> d[j] == NatToString(-n)[j - 1];
    } else {
      assert d == NatToString(n);
    }
    assert forall j :: 0 <= j < |d| ==> d[j] == '-' || IsDigit(d[j]);
  }

  /** `[type::int]` applied to a written 32-bit integer yields that integer. */
  lemma CastToInt(n: int, credentialPrefix: string, parsesReal: (RealKind, string) -> bool)
    requires Int32Min <= n <= Int32Max
    requires !StartsWith("[type::int]" + IntToString(n), credentialPrefix)
    ensures ConvertScalar("[type::int]" + IntToString(n), credentialPrefix, parsesReal) == PSInteger(Int32, n)
  {
    IntCastValue(n, parsesReal);
  }

  /** The value of the cast `[type::int]n` for an `n` within 32 bits. */
  lemma IntCastValue(n: int, parsesReal: (RealKind, string) -> bool)
    requires Int32Min <= n <= Int32Max
    ensures CastValue("[type::int]" + IntToString(n), parsesReal) == Some(PSInteger(Int32, n))
  {
    var d := IntToString(n);
    var s := "[type::int]" + d;
    IntToStringShape(n);
    TypeCastParts("int", d);
    assert "[type::" + "int" + "]" + d == s;
    ParseIntegerIntToString(n);
    IntCastOf(s, d, n, parsesReal);
  }

  /** A cast to `int` whose value text parses to a 32-bit number gives that number. */
  lemma IntCastOf(s: string, d: string, n: int, parsesReal: (RealKind, string) -> bool)
    requires TypeCast(s) == Some(("int", d)) && ParseInteger(d) == Some(n) && Int32Min <= n <= Int32Max
    ensures CastValue(s, parsesReal) == Some(PSInteger(Int32, n))
  {
    IntTargetOfInt();
    CastOf(s, "int", d, parsesReal);
    assert TryParseInRange(d, MinOf(Int32), MaxOf(Int32)) == Some(n);
  }

  /** The type name `int` casts to a 32-bit integer. */
  lemma IntTargetOfInt()
    ensures CastTargetOf(LowerStr("int")) == IntTarget(Int32)
  {
    assert LowerStr("int") == "int";
  }

  /** The cast `[type::int]abc` has a value that does not parse. */
  lemma UnparsedCast(parsesReal: (RealKind, string) -> bool)
    ensures CastValue("[type::int]abc", parsesReal).None?
  {
    var s := "[type::int]abc";
    TypeCastParts("int", "abc");
    assert "[type::" + "int" + "]" + "abc" == s;
    IntTargetOfInt();
    NotInteger("abc");
    CastOf(s, "int", "abc", parsesReal);
  }

  /** A cast whose value does not parse falls through: the whole text is then read without it. */
  lemma CastFallsThrough(credentialPrefix: string, parsesReal: (RealKind, string) -> bool)
    requires !StartsWith("[type::int]abc", credentialPrefix)
    ensures ConvertScalar("[type::int]abc", credentialPrefix, parsesReal) == PSString("[type::int]abc")
  {
    var s := "[type::int]abc";
    UnparsedCast(parsesReal);
    NotInteger(s);
    assert !EqIC(s, "true") by { assert |UpperStr(s)| != |UpperStr("true")|; }
    assert !EqIC(s, "false") by { assert |UpperStr(s)| != |UpperStr("false")|; }
  }

  /** Without a cast, a written 32-bit integer becomes that integer. */
  lemma PlainInteger(n: int, credentialPrefix: string, parsesReal: (RealKind, string) -> bool)
    requires Int32Min <= n <= Int32Max
    requires !StartsWith(IntToString(n), credentialPrefix)
    ensures ConvertScalar(IntToString(n), credentialPrefix, parsesReal) == PSInteger(Int32, n)
  {
    TryParseInt32IntToString(n);
    IntToStringShape(n);
  }

  // ---------------------------------------------------------------------------
  // ParseJson

  /** The first failure among the results, or all the values. */
  function AllOk<T>(rs: seq<Result<T>>): (r: Result<seq<T>>)
    ensures r.Ok? ==> |r.value| == |rs| && forall i :: 0 <= i < |rs| ==> rs[i] == Ok(r.value[i])
    ensures r.Ok? <==> forall i :: 0 <= i < |rs| ==> rs[i].Ok?
    decreases |rs|
  {
    if rs == [] then Ok([])
    else if rs[0].Err? then Err(rs[0].error)
    else
      match AllOk(rs[1..])
      case Err(e) => Err(e)
      case Ok(vs) => Ok([rs[0].value] + vs)
  }

  /** `dict.Add(name, value)` for each property in turn; a repeated name throws. */
  function DictFrom(props: seq<(string, Result<RuntimeValue>)>): (r: Result<seq<(string, RuntimeValue)>>)
    ensures r.Ok? ==> UniqueKeys(false, r.value)
    decreases |props|
  {
    if props == [] then Ok([])
    else
      var last := props[|props| - 1];
      match DictFrom(props[..|props| - 1])
      case Err(e) => Err(e)
      case Ok(d) =>
        if last.1.Err? then Err(last.1.error)
        else
          var r := Add(false, d, last.0, last.1.value);
          if r.Ok? then
            assert forall j :: 0 <= j < |d| ==> !KeyEq(false, d[j].0, last.0);
            r
          else r
  }

  /**
   * `convertElement`: strings and numbers by their text, booleans as
   * "True"/"False", null (and anything else) as "", arrays element by
   * element, objects as a map — unless the map has exactly one entry,
   * named "Value", whose value is then taken instead.
   */
  function ConvertElement(e: Json): (r: Result<RuntimeValue>)
    decreases e, 1
  {
    match e
    case JString(s) => Ok(Str(s))
    case JNumber(raw) => Ok(Str(raw))
    case JTrue => Ok(Str("True"))
    case JFalse => Ok(Str("False"))
    case JNull => Ok(Str(""))
    case JArray(elements) =>
      var rs := AllOk(seq(|elements|, i requires 0 <= i < |elements| => ConvertElement(elements[i])));
      if rs.Err? then Err(rs.error) else Ok(Vector(rs.value))
    case JObject(props) =>
      var d := DictFrom(PropertyValues(props));
      if d.Err? then Err(d.error)
      else if |d.value| == 1 && HasKey(false, d.value, "Value") then Ok(d.value[0].1)
      else Ok(Map(d.value))
  }

  /** `ParseJson`: empty text is the default value; `parse` stands for the JSON reader, none meaning malformed. */
  function ParseJson(json: string, parse: string -> Option<Json>): (r: Result<RuntimeValue>)
    ensures json == "" ==> r == Ok(Default)
    ensures json != "" && parse(json).None? ==> r == Err("JsonException")
    ensures json != "" && parse(json).Some? ==> r == ConvertElement(parse(json).value)
  {
    if json == "" then Ok(Default)
    else match parse(json)
      case None => Err("JsonException")
      case Some(e) => ConvertElement(e)
  }

  /** One more property: the dictionary so far, then this property's value and its `Add`. */
  lemma DictFromSnoc(props: seq<(string, Result<RuntimeValue>)>, p: (string, Result<RuntimeValue>))
    ensures DictFrom(props + [p]) ==
      if DictFrom(props).Err? then DictFrom(props)
      else if p.1.Err? then Err(p.1.error)
      else Add(false, DictFrom(props).value, p.0, p.1.value)
  {
    assert (props + [p])[..|props|] == props;
  }

  /** The converted pairs of an object's properties. */
  function PropertyValues(props: seq<(string, Json)>): (r: seq<(string, Result<RuntimeValue>)>)
    ensures |r| == |props|
    ensures forall i :: 0 <= i < |props| ==> r[i] == (props[i].0, ConvertElement(props[i].1))
    decreases JObject(props), 0
  {
    seq(|props|, i requires 0 <= i < |props| => (props[i].0, ConvertElement(props[i].1)))
  }

  /** An object whose only property is named "Value" reads as that property's value. */
  lemma ValueUnwrapped(x: Json)
    ensures ConvertElement(JObject([("Value", x)])) == ConvertElement(x)
  {
    var pairs := PropertyValues([("Value", x)]);
    assert pairs == [] + [("Value", ConvertElement(x))];
    DictFromSnoc([], ("Value", ConvertElement(x)));
  }

  /** The name is matched case-sensitively: a lone "value" property stays a map. */
  lemma LowerValueKept()
    ensures ConvertElement(JObject([("value", JString("x"))])) == Ok(Map([("value", Str("x"))]))
  {
    var pairs := PropertyValues([("value", JString("x"))]);
    assert pairs == [] + [("value", Ok(Str("x")))];
    var none: seq<(string, Result<RuntimeValue>)> := [];
    assert DictFrom(none) == Ok([]);
    DictFromSnoc(none, ("value", Ok(Str("x"))));
    var empty: seq<(string, RuntimeValue)> := [];
    assert !HasKey(false, empty, "value");
    assert empty + [("value", Str("x"))] == [("value", Str("x"))];
    assert DictFrom(pairs) == Ok([("value", Str("x"))]);
    assert !HasKey(false, [("value", Str("x"))], "Value") by {
      assert "value" != "Value";
    }
  }

  /** A repeated property name throws. */
  lemma DuplicatePropertyThrows(x: Json, y: Json)
    requires ConvertElement(x).Ok? && ConvertElement(y).Ok?
    ensures ConvertElement(JObject([("a", x), ("a", y)])) == Err("ArgumentException")
  {
    var pairs := PropertyValues([("a", x), ("a", y)]);
    assert pairs == [] + [("a", ConvertElement(x))] + [("a", ConvertElement(y))];
    DictFromSnoc([], ("a", ConvertElement(x)));
    DictFromSnoc([("a", ConvertElement(x))], ("a", ConvertElement(y)));
  }

  /** JSON null reads as the empty string, not as the default value. */
  lemma NullReadsEmpty()
    ensures ConvertElement(JNull) == Ok(Str("")) && Str("") != Default
  {
  }

  /** A value with no null scalar, no repeated map key and no lone "Value" entry. */
  predicate Representable(v: RuntimeValue)
    decreases v
  {
    match v
    case Scalar(t) => t.Some?
    case Vector(items) => forall i :: 0 <= i < |items| ==> Representable(items[i])
    case Map(entries) =>
      UniqueKeys(false, entries) && !(|entries| == 1 && entries[0].0 == "Value") &&
      forall i :: 0 <= i < |entries| ==> Representable(entries[i].1)
  }

  /** A value written as JSON: scalars as strings, vectors as arrays, maps as objects. */
  function ToJson(v: RuntimeValue): Json
    decreases v
  {
    match v
    case Scalar(t) => if t.Some? then JString(t.value) else JNull
    case Vector(items) => JArray(seq(|items|, i requires 0 <= i < |items| => ToJson(items[i])))
    case Map(entries) => JObject(seq(|entries|, i requires 0 <= i < |entries| => (entries[i].0, ToJson(entries[i].1))))
  }

  /** Adding properties with distinct names in order rebuilds the map. */
  lemma {:induction false} DictFromDistinct(props: seq<(string, Result<RuntimeValue>)>, entries: seq<(string, RuntimeValue)>)
    requires |props| == |entries| && UniqueKeys(false, entries)
    requires forall i :: 0 <= i < |props| ==> props[i] == (entries[i].0, Ok(entries[i].1))
    ensures DictFrom(props) == Ok(entries)
    decreases |props|
  {
    if props != [] {
      var n := |props| - 1;
      DictFromDistinct(props[..n], entries[..n]);
      assert FindKey(false, entries[..n], entries[n].0) == -1;
      assert entries[..n] + [entries[n]] == entries;
    }
  }

  /** Round trip: reading back the JSON of a representable value gives the value. */
  lemma {:induction false} ReadWritten(v: RuntimeValue)
    requires Representable(v)
    ensures ConvertElement(ToJson(v)) == Ok(v)
    decreases v
  {
    match v
    case Scalar(t) =>
    case Vector(items) =>
      var js := seq(|items|, i requires 0 <= i < |items| => ToJson(items[i]));
      forall i | 0 <= i < |items| ensures ConvertElement(js[i]) == Ok(items[i]) {
        ReadWritten(items[i]);
      }
      var rs := seq(|js|, i requires 0 <= i < |js| => ConvertElement(js[i]));
      assert AllOk(rs).Ok?;
      assert AllOk(rs).value == items;
    case Map(entries) =>
      var ps := seq(|entries|, i requires 0 <= i < |entries| => (entries[i].0, ToJson(entries[i].1)));
      forall i | 0 <= i < |entries| ensures ConvertElement(ps[i].1) == Ok(entries[i].1) {
        ReadWritten(entries[i].1);
      }
      DictFromDistinct(PropertyValues(ps), entries);
      if |entries| == 1 {
        assert !HasKey(false, entries, "Value");
      }
  }

  // ---------------------------------------------------------------------------
  // The output classifier

  /** An object the script writes: a string, or any other object (null included). */
  datatype OutputObject = Text(s: string) | Other(id: nat)

  /** What `DataAdded` does with an object. */
  datatype LineKind =
    | OutVarLine(name: string, json: string)
    | DroppedOutVar
    | PidLine(pid: int)
    | DroppedPid
    | Forwarded

  /**
   * A string longer than the out-variable prefix names the variable up to
   * the next `!` (a name that is not empty) and carries its JSON after it;
   * a string longer than the process-id prefix carries a 32-bit integer;
   * malformed sentinel lines are dropped; everything else is output.
   */
  function Classify(obj: OutputObject): (r: LineKind)
    ensures r.OutVarLine? ==> obj.Text? && obj.s == OutVarPrefix + r.name + "!" + r.json && r.name != [] && '!' !in r.name
    ensures r.PidLine? ==> obj.Text? && StartsWith(obj.s, ProcessIdPrefix) && TryParseInt32(obj.s[|ProcessIdPrefix|..]) == Some(r.pid)
  {
    if obj.Other? then Forwarded
    else
      var s := obj.s;
      var p := |OutVarPrefix|;
      if StartsWith(s, OutVarPrefix) && |s| > p then
        var k := IndexOfCharFrom(s, '!', p);
        if k > p then
          assert s == s[..p] + s[p..k] + "!" + s[k + 1..];
          assert forall j :: 0 <= j < k - p ==> s[p..k][j] == s[p + j];
          OutVarLine(s[p..k], s[k + 1..])
        else DroppedOutVar
      else if StartsWith(s, ProcessIdPrefix) && |s| > |ProcessIdPrefix| then
        var pid := TryParseInt32(s[|ProcessIdPrefix|..]);
        if pid.Some? then PidLine(pid.value) else DroppedPid
      else Forwarded
  }

  /** The line an out-variable statement of the script writes. */
  function EmittedLine(name: string, json: string): string
  {
    OutVarPrefix + name + "!" + json
  }

  /** The statement appended to the script for each out-variable. */
  function OutVarStatement(name: string): string
  {
    "Write-Output \"" + OutVarPrefix + name + "!$(ConvertTo-Json -InputObject ${" + name + "} -Compress)\""
  }

  /** Round trip: the line written for a variable whose name has no `!` is read back as that variable and its JSON. */
  lemma ClassifyEmitted(name: string, json: string)
    requires name != [] && '!' !in name
    ensures Classify(Text(EmittedLine(name, json))) == OutVarLine(name, json)
  {
    var s := EmittedLine(name, json);
    var p := |OutVarPrefix|;
    assert s[..p] == OutVarPrefix;
    assert s[p + |name|] == '!' && forall j :: p <= j < p + |name| ==> s[j] == name[j - p];
    assert IndexOfCharFrom(s, '!', p) == p + |name|;
    assert s[p..p + |name|] == name;
    assert s[p + |name| + 1..] == json;
  }

  /** A name holding `!` is cut at its first `!`; the rest joins the JSON text. */
  lemma ClassifyNameWithBang(json: string)
    ensures Classify(Text(EmittedLine("a!b", json))) == OutVarLine("a", "b!" + json)
  {
    var s := EmittedLine("a!b", json);
    assert s == EmittedLine("a", "b!" + json);
    ClassifyEmitted("a", "b!" + json);
  }

  /** Round trip: the line announcing a process id is read back as that id. */
  lemma ClassifyPid(pid: int)
    requires Int32Min <= pid <= Int32Max
    ensures Classify(Text(ProcessIdPrefix + IntToString(pid))) == PidLine(pid)
  {
    var s := ProcessIdPrefix + IntToString(pid);
    assert s[7] != OutVarPrefix[7];
    assert !StartsWith(s, OutVarPrefix);
    assert s[|ProcessIdPrefix|..] == IntToString(pid);
    IntToStringShape(pid);
    TryParseInt32IntToString(pid);
  }

  /** A string is passed on as output iff it is not longer than, and starting with, one of the two prefixes. */
  lemma ForwardedIff(s: string)
    ensures Classify(Text(s)).Forwarded? <==>
      !((StartsWith(s, OutVarPrefix) && |s| > |OutVarPrefix|) || (StartsWith(s, ProcessIdPrefix) && |s| > |ProcessIdPrefix|))
  {
  }

  /** The bare prefix, with nothing after it, is ordinary output. */
  lemma BarePrefixForwarded()
    ensures Classify(Text(OutVarPrefix)) == Forwarded
  {
    assert !StartsWith(OutVarPrefix, ProcessIdPrefix);
  }

  /** `HashSet.Add`. */
  function AddIfAbsent<T(==)>(s: seq<T>, x: T): (r: seq<T>)
    ensures x in r && forall y :: y in s ==> y in r
    ensures forall y :: y in r ==> y in s || y == x
  {
    if x in s then s else s + [x]
  }

  /** With distinct keys, setting the key at index `i` replaces that entry's value in place. */
  lemma SetOwnKey<V>(ic: bool, d: seq<(string, V)>, i: nat, v: V)
    requires UniqueKeys(ic, d) && i < |d|
    ensures Set(ic, d, d[i].0, v) == d[i := (d[i].0, v)]
  {
    assert KeyEq(ic, d[i].0, d[i].0);
    var r := FindKey(ic, d, d[i].0);
  }

  /** The out-variables of one run: the dictionary the caller passed in, and the names reported by sentinel lines. */
  class OutVariables {
    var values: seq<(string, RuntimeValue)>
    var reported: seq<string>
    /** Whether the caller's dictionary compares keys ignoring case. */
    const ic: bool

    predicate Valid()
      reads this
    {
      UniqueKeys(ic, values)
    }

    constructor (ic: bool, values: seq<(string, RuntimeValue)>)
      requires UniqueKeys(ic, values)
      ensures Valid() && this.ic == ic && this.values == values && reported == []
    {
      this.ic := ic;
      this.values := values;
      reported := [];
    }

    /** `values` after the run: each variable not reported by a sentinel line is read from the session (`getVariable`). */
    function Filled(getVariable: string -> RuntimeValue): (r: seq<(string, RuntimeValue)>)
      reads this
      ensures |r| == |values|
      ensures forall i :: 0 <= i < |values| ==> r[i].0 == values[i].0
      ensures forall i :: 0 <= i < |values| && values[i].0 in reported ==> r[i].1 == values[i].1
      ensures forall i :: 0 <= i < |values| && values[i].0 !in reported ==> r[i].1 == getVariable(values[i].0)
    {
      seq(|values|, i requires 0 <= i < |values| reads this =>
        (values[i].0, if values[i].0 in reported then values[i].1 else getVariable(values[i].0)))
    }

    /** The loop after `EndInvoke`: every unreported variable is read back from the session. */
    method ReadUnreported(getVariable: string -> RuntimeValue)
      requires Valid()
      modifies this
      ensures Valid() && reported == old(reported)
      ensures values == old(Filled(getVariable))
    {
      var keys := Keys(values);
      ghost var target := Filled(getVariable);
      for i := 0 to |keys|
        invariant Valid() && reported == old(reported) && |values| == |keys|
        invariant forall j :: 0 <= j < |keys| ==> values[j].0 == keys[j]
        invariant forall j :: 0 <= j < i ==> values[j] == target[j]
        invariant forall j :: i <= j < |keys| ==> values[j] == old(values[j])
      {
        if keys[i] !in reported {
          SetOwnKey(ic, values, i, getVariable(keys[i]));
          SetKeepsUnique(ic, values, keys[i], getVariable(keys[i]));
          values := Set(ic, values, keys[i], getVariable(keys[i]));
        }
      }
    }
  }

  /** The runner's state: the host processes it learnt of, the output it passed on, and whether it was disposed. */
  class Runner {
    var hostProcessIds: seq<int>
    var forwarded: seq<OutputObject>
    var runspaceCreated: bool
    var disposed: bool
    const terminateHostProcess: bool

    constructor (terminateHostProcess: bool)
      ensures this.terminateHostProcess == terminateHostProcess
      ensures hostProcessIds == [] && forwarded == [] && !runspaceCreated && !disposed
    {
      this.terminateHostProcess := terminateHostProcess;
      hostProcessIds := [];
      forwarded := [];
      runspaceCreated := false;
      disposed := false;
    }

    /** The `Runspace` property: the runspace is created on first use. */
    method OpenRunspace()
      modifies this
      ensures runspaceCreated
      ensures hostProcessIds == old(hostProcessIds) && forwarded == old(forwarded) && disposed == old(disposed)
    {
      runspaceCreated := true;
    }

    /**
     * The `DataAdded` handler. An out-variable line records its parsed JSON
     * under its name (a JSON error is returned and nothing is recorded); a
     * process-id line adds its id; ordinary output is passed on.
     */
    method DataAdded(obj: OutputObject, vars: OutVariables, parse: string -> Option<Json>) returns (error: Option<string>)
      requires vars.Valid()
      modifies this, vars
      ensures vars.Valid()
      ensures Classify(obj).OutVarLine? && ParseJson(Classify(obj).json, parse).Ok? ==>
        error.None? &&
        vars.values == Set(vars.ic, old(vars.values), Classify(obj).name, ParseJson(Classify(obj).json, parse).value) &&
        vars.reported == AddIfAbsent(old(vars.reported), Classify(obj).name)
      ensures Classify(obj).OutVarLine? && ParseJson(Classify(obj).json, parse).Err? ==>
        error == Some(ParseJson(Classify(obj).json, parse).error) && vars.values == old(vars.values) && vars.reported == old(vars.reported)
      ensures !Classify(obj).OutVarLine? ==> error.None? && vars.values == old(vars.values) && vars.reported == old(vars.reported)
      ensures hostProcessIds == if Classify(obj).PidLine? then AddIfAbsent(old(hostProcessIds), Classify(obj).pid) else old(hostProcessIds)
      ensures forwarded == if Classify(obj).Forwarded? then old(forwarded) + [obj] else old(forwarded)
      ensures runspaceCreated == old(runspaceCreated) && disposed == old(disposed)
    {
      error := None;
      if obj.Other? {
        forwarded := forwarded + [obj];
        return;
      }
      var value := obj.s;
      if StartsWith(value, OutVarPrefix) && |value| > |OutVarPrefix| {
        var k := IndexOfCharFrom(value, '!', |OutVarPrefix|);
        if k > |OutVarPrefix| {
          var varName := value[|OutVarPrefix|..k];
          var varValue := ParseJson(value[k + 1..], parse);
          assert Classify(obj) == OutVarLine(varName, value[k + 1..]);
          if varValue.Err? {
            return Some(varValue.error);
          }
          vars.reported := AddIfAbsent(vars.reported, varName);
          SetKeepsUnique(vars.ic, vars.values, varName, varValue.value);
          vars.values := Set(vars.ic, vars.values, varName, varValue.value);
        } else {
          assert Classify(obj) == DroppedOutVar;
        }
      } else if StartsWith(value, ProcessIdPrefix) && |value| > |ProcessIdPrefix| {
        var pid := TryParseInt32(value[|ProcessIdPrefix|..]);
        if pid.Some? {
          assert Classify(obj) == PidLine(pid.value);
          hostProcessIds := AddIfAbsent(hostProcessIds, pid.value);
        } else {
          assert Classify(obj) == DroppedPid;
        }
      } else {
        assert Classify(obj) == Forwarded;
        forwarded := forwarded + [obj];
      }
    }

    /** `Dispose`: the first disposal of a runner whose runspace exists attempts to kill every tracked process but its own. */
    method Dispose(myPid: int) returns (killed: seq<int>)
      modifies this
      ensures killed == if !old(disposed) && runspaceCreated && terminateHostProcess then Without(hostProcessIds, myPid) else []
      ensures disposed == (old(disposed) || runspaceCreated)
      ensures hostProcessIds == old(hostProcessIds) && forwarded == old(forwarded) && runspaceCreated == old(runspaceCreated)
    {
      killed := [];
      if !disposed && runspaceCreated {
        if terminateHostProcess {
          for i := 0 to |hostProcessIds|
            invariant killed == Without(hostProcessIds[..i], myPid)
          {
            if hostProcessIds[i] != myPid {
              killed := killed + [hostProcessIds[i]];
            }
            assert hostProcessIds[..i + 1][..i] == hostProcessIds[..i];
          }
          assert hostProcessIds[..|hostProcessIds|] == hostProcessIds;
        }
        disposed := true;
      }
    }
  }

  /** The ids other than `x`, in order. */
  function Without(s: seq<int>, x: int): (r: seq<int>)
    ensures forall y :: y in r <==> y in s && y != x
    ensures |r| <= |s|
    decreases |s|
  {
    if s == [] then []
    else Without(s[..|s| - 1], x) + (if s[|s| - 1] != x then [s[|s| - 1]] else [])
  }

  /** Disposing twice kills nothing the second time. */
  lemma WithoutOwn(s: seq<int>, myPid: int)
    ensures myPid !in Without(s, myPid)
    ensures myPid !in s ==> |Without(s, myPid)| == |s|
  {
    if myPid !in s {
      WithoutAbsent(s, myPid);
    }
  }

  lemma {:induction false} WithoutAbsent(s: seq<int>, x: int)
    requires x !in s
    ensures Without(s, x) == s
    decreases |s|
  {
    if s != [] {
      WithoutAbsent(s[..|s| - 1], x);
      assert s[..|s| - 1] + [s[|s| - 1]] == s;
    }
  }

  // ---------------------------------------------------------------------------
  // ExtractVariablesInternal

  datatype PSTokenType = VariableToken | StringToken | OtherToken

  /** A token of the PowerShell tokenizer, which is not modelled: tokens are an input. */
  datatype PSToken = PSToken(tokenType: PSTokenType, content: string)

  /**
   * The matches of `\$(NAME)|\$\{(TEXT)\}` from position `i`, left to
   * right and without overlap: NAME is a run of ASCII letters, digits and
   * `_`; TEXT is everything up to the next `}` and is not empty.
   */
  function VarMatches(s: string, i: nat): (r: seq<string>)
    requires i <= |s|
    ensures forall m :: m in r ==> m != []
    decreases |s| - i
  {
    if i == |s| then []
    else if s[i] != '$' then VarMatches(s, i + 1)
    else
      var e := Skip(s, i + 1, IsWordChar);
      if e > i + 1 then [s[i + 1..e]] + VarMatches(s, e)
      else if i + 1 < |s| && s[i + 1] == '{' then
        var c := IndexOfCharFrom(s, '}', i + 2);
        if c > i + 2 then [s[i + 2..c]] + VarMatches(s, c + 1)
        else VarMatches(s, i + 1)
      else VarMatches(s, i + 1)
  }

  /** `$name` is one match: the name. */
  lemma VarMatchesPlain(name: string)
    requires name != [] && forall j :: 0 <= j < |name| ==> IsWordChar(name[j])
    ensures VarMatches("$" + name, 0) == [name]
  {
    var s := "$" + name;
    SliceAll(s, 1, |s|, IsWordChar);
    assert s[1..|s|] == name;
  }

  /** `${text}` is one match: the text, whatever it holds but `}`. */
  lemma VarMatchesBraced(text: string)
    requires text != [] && '}' !in text
    ensures VarMatches("${" + text + "}", 0) == [text]
  {
    var s := "${" + text + "}";
    assert Skip(s, 1, IsWordChar) == 1 by { assert !IsWordChar(s[1]); }
    assert forall j :: 2 <= j < |s| - 1 ==> s[j] == text[j - 2];
    assert forall j :: 2 <= j < |s| - 1 ==> s[j] != '}' by {
      forall j | 2 <= j < |s| - 1 ensures s[j] != '}' { assert s[j] in text; }
    }
    assert s[|s| - 1] == '}';
    assert IndexOfCharFrom(s, '}', 2) == |s| - 1;
    assert s[2..|s| - 1] == text;
  }

  /** The contents of the variable tokens, in order. */
  function VariableContents(ts: seq<PSToken>): seq<string>
    decreases |ts|
  {
    if ts == [] then []
    else VariableContents(ts[..|ts| - 1]) + (if ts[|ts| - 1].tokenType == VariableToken then [ts[|ts| - 1].content] else [])
  }

  /** The regular-expression matches in the string tokens, in order. */
  function StringMatches(ts: seq<PSToken>): seq<string>
    decreases |ts|
  {
    if ts == [] then []
    else StringMatches(ts[..|ts| - 1]) + (if ts[|ts| - 1].tokenType == StringToken then VarMatches(ts[|ts| - 1].content, 0) else [])
  }

  /** The names `ExtractVariablesInternal` returns; no tokens give none. */
  function Extracted(tokens: Option<seq<PSToken>>): seq<string>
  {
    if tokens.None? then []
    else AddAllIC(AddAllIC([], VariableContents(tokens.value)), StringMatches(tokens.value))
  }

  /** `ExtractVariablesInternal`: the variable tokens' contents, then the names mentioned inside strings, each kept once ignoring case. */
  method ExtractVariablesInternal(tokens: Option<seq<PSToken>>) returns (vars: seq<string>)
    ensures vars == Extracted(tokens)
  {
    if tokens.None? {
      return [];
    }
    var ts := tokens.value;
    vars := [];
    for i := 0 to |ts|
      invariant vars == AddAllIC([], VariableContents(ts[..i]))
    {
      TokensNext(ts, i);
      if ts[i].tokenType == VariableToken {
        AddAllICSnoc([], VariableContents(ts[..i]), ts[i].content);
        vars := AddIC(vars, ts[i].content);
      }
    }
    assert ts[..|ts|] == ts;
    ghost var base := vars;
    for i := 0 to |ts|
      invariant vars == AddAllIC(base, StringMatches(ts[..i]))
    {
      TokensNext(ts, i);
      ghost var before := StringMatches(ts[..i]);
      if ts[i].tokenType == StringToken {
        var matches := VarMatches(ts[i].content, 0);
        assert before + matches[..0] == before;
        for j := 0 to |matches|
          invariant vars == AddAllIC(base, before + matches[..j])
        {
          PrefixSnoc(before, matches, j);
          AddAllICSnoc(base, before + matches[..j], matches[j]);
          vars := AddIC(vars, matches[j]);
        }
        assert matches[..|matches|] == matches;
      }
    }
  }

  /** One more token adds its content to the variable contents when it is a variable, and its matches to the string matches when it is a string. */
  lemma TokensNext(ts: seq<PSToken>, i: nat)
    requires i < |ts|
    ensures ts[i].tokenType == VariableToken ==> VariableContents(ts[..i + 1]) == VariableContents(ts[..i]) + [ts[i].content]
    ensures ts[i].tokenType != VariableToken ==> VariableContents(ts[..i + 1]) == VariableContents(ts[..i])
    ensures ts[i].tokenType == StringToken ==> StringMatches(ts[..i + 1]) == StringMatches(ts[..i]) + VarMatches(ts[i].content, 0)
    ensures ts[i].tokenType != StringToken ==> StringMatches(ts[..i + 1]) == StringMatches(ts[..i])
  {
    assert ts[..i + 1][..i] == ts[..i] && ts[..i + 1][i] == ts[i];
    assert VariableContents(ts[..i]) + [] == VariableContents(ts[..i]);
    assert StringMatches(ts[..i]) + [] == StringMatches(ts[..i]);
  }

  /**
   * The result names each variable token and each name mentioned in a
   * string (up to case), holds nothing else, and holds nothing twice.
   */
  lemma ExtractedSound(ts: seq<PSToken>)
    ensures DistinctIC(Extracted(Some(ts)))
    ensures forall x :: x in VariableContents(ts) ==> ContainsIC(Extracted(Some(ts)), x)
    ensures forall x :: x in StringMatches(ts) ==> ContainsIC(Extracted(Some(ts)), x)
    ensures forall z :: z in Extracted(Some(ts)) ==> z in VariableContents(ts) || z in StringMatches(ts)
  {
    AddAllICFacts([], VariableContents(ts));
    var base := AddAllIC([], VariableContents(ts));
    AddAllICFacts(base, StringMatches(ts));
    forall x | x in VariableContents(ts) ensures ContainsIC(Extracted(Some(ts)), x) {
      var j :| 0 <= j < |base| && EqIC(base[j], x);
      assert base[j] in Extracted(Some(ts));
      var k :| 0 <= k < |Extracted(Some(ts))| && Extracted(Some(ts))[k] == base[j];
    }
  }
}
