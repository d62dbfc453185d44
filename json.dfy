/**
 * The JSON values the card metadata is made of, the property-bag view of a
 * parsed object, and the quoting `JSON.stringify` applies to a string.
 *
 * `JSON.parse` is foreign to the model: it is passed in as a function
 * (`JsonParser`), `None` standing for a thrown `SyntaxError`.
 */
module Json {
  import opened Wrappers
  import opened Text

  /** A JavaScript number as `JSON.parse` yields it: the model keeps integers, and `1e999` parses to a non-finite value. */
  datatype Number = Finite(value: int) | NonFinite

  datatype JValue =
    | JNull
    | JBool(b: bool)
    | JNum(n: Number)
    | JStr(s: string)
    | JArr(items: seq<JValue>)
    | JObj(fields: map<string, JValue>)

  /** A parsed object seen as a property bag: `obj[key]` is `Get(obj, key)`. */
  type Metadata = map<string, JValue>

  /** The foreign `JSON.parse`: `None` when it throws. */
  type JsonParser = string -> Option<JValue>

  /** `obj[key]`, with `None` for `undefined`. */
  function Get(obj: Metadata, key: string): Option<JValue>
  {
    if key in obj then Some(obj[key]) else None
  }

  /** `obj?.[key]` on an object that may itself be missing. */
  function Prop(obj: Option<Metadata>, key: string): Option<JValue>
  {
    if obj.None? then None else Get(obj.value, key)
  }

  /** `JSON.stringify` of one string: quotes, with `"`, `\` and control characters escaped. */
  function QuoteString(s: string): (r: string)
    ensures |r| >= 2 && r[0] == '"' && r[|r| - 1] == '"'
  {
    "\"" + EscapeString(s) + "\""
  }

  function EscapeString(s: string): string
  {
    if s == [] then [] else EscapeChar(s[0]) + EscapeString(s[1..])
  }

  function HexDigitChar(d: nat): char
    requires d < 16
  {
    if d < 10 then DigitChar(d) else ('a' as int + d - 10) as char
  }

  function EscapeChar(c: char): string
  {
    if c == '"' then "\\\""
    else if c == '\\' then "\\\\"
    else if c == '\U{0008}' then "\\b"
    else if c == '\t' then "\\t"
    else if c == '\n' then "\\n"
    else if c == '\U{000C}' then "\\f"
    else if c == '\r' then "\\r"
    else if (c as int) < 0x20 then "\\u00" + [HexDigitChar(c as int / 16), HexDigitChar(c as int % 16)]
    else [c]
  }
}
