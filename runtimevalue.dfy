/**
 * The host's values as the extension sees them: `RuntimeValue` (a scalar,
 * a vector or a map), a parsed JSON tree, and the message levels of the log.
 * `RuntimeValue` belongs to the host SDK; only the behaviour the extension
 * relies on is stated here.
 */
module RuntimeValues {
  import opened Common

  /** A host value. The default value is a null scalar. */
  datatype RuntimeValue =
    | Scalar(text: Option<string>)
    | Vector(items: seq<RuntimeValue>)
    | Map(entries: seq<(string, RuntimeValue)>)

  const Default: RuntimeValue := Scalar(None)

  /** `new RuntimeValue(s)`. */
  function Str(s: string): RuntimeValue { Scalar(Some(s)) }

  /** `new RuntimeValue(b)`: the scalar "true" or "false". */
  function FromBool(b: bool): RuntimeValue { Str(if b then "true" else "false") }

  /** `AsString()`: a scalar's text, null for anything else. */
  function AsString(v: RuntimeValue): Option<string>
  {
    if v.Scalar? then v.text else None
  }

  /** `AsBoolean()`: a scalar read as `true`/`false`, null otherwise. */
  function AsBoolean(v: RuntimeValue): Option<bool>
  {
    TryParseBool(AsString(v))
  }

  /** `value.AsString() ?? ""`. */
  function ScalarText(v: RuntimeValue): string
  {
    AsString(v).GetOr("")
  }

  /** A JSON document tree as `System.Text.Json` exposes it. */
  datatype Json =
    | JObject(props: seq<(string, Json)>)
    | JArray(elements: seq<Json>)
    | JString(s: string)
    | JNumber(raw: string)
    | JTrue
    | JFalse
    | JNull

  /** The host log's message levels. */
  datatype MessageLevel = Debug | Information | Warning | Error

  /** A logged message. */
  datatype LogMessage = LogMessage(level: MessageLevel, text: string)
}
