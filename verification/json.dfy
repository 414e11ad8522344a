/**
 JSON values as the server and the client see them after parsing, with
 JavaScript's truthiness and string conversion.
 */
module Json {
  import opened Decimal

  /**
   A parsed JSON value. Numbers are integers; an object or array is opaque and
   carries the text `String(v)` gives for it.
   */
  datatype Json =
    | JNull
    | JBool(b: bool)
    | JInt(i: int)
    | JStr(s: string)
    | JComposite(asText: string)

  /** JavaScript truthiness: `null`, `false`, `0` and `""` are falsy. */
  predicate Truthy(j: Json) {
    match j
    case JNull => false
    case JBool(b) => b
    case JInt(i) => i != 0
    case JStr(s) => s != ""
    case JComposite(_) => true
  }

  /** `String(v)`: the text a value turns into when concatenated or bound as text. */
  function ToJsString(j: Json): string {
    match j
    case JNull => "null"
    case JBool(b) => if b then "true" else "false"
    case JInt(i) => IntToDecimal(i)
    case JStr(s) => s
    case JComposite(t) => t
  }

  /** `v || d` where the fallback is a string. */
  function OrDefault(j: Json, d: string): string {
    if Truthy(j) then ToJsString(j) else d
  }
}
