/**
 * `JSON.stringify(value, null, gap)` (ECMAScript 2019, sections 24.5.2.1-24.5.2.6)
 * for values that `JSON.parse` can produce. With an empty gap the text is
 * compact; with a gap of spaces each array element and object member goes on
 * its own line, indented one more gap than its container.
 */
module JsonPrinter {
  import opened Json

  /** QuoteJSONString for one character. */
  function EscapeChar(c: char): (t: string)
    ensures t != []
  {
    if c == '"' then "\\\""
    else if c == '\\' then "\\\\"
    else if c == 0x08 as char then "\\b"
    else if c == '\t' then "\\t"
    else if c == '\n' then "\\n"
    else if c == 0x0C as char then "\\f"
    else if c == '\r' then "\\r"
    else if (c as int) < 0x20 then
      "\\u00" + [HexDigit(c as int / 16), HexDigit(c as int % 16)]
    else [c]
  }

  function QuoteBody(s: string): string {
    if s == [] then [] else EscapeChar(s[0]) + QuoteBody(s[1..])
  }

  /** A JSON string literal for `s`. */
  function Quote(s: string): (t: string)
    ensures |t| >= 2 && t[0] == '"'
  {
    "\"" + QuoteBody(s) + "\""
  }

  /** `parts` separated by `sep`. */
  function Join(parts: seq<string>, sep: string): string {
    if parts == [] then ""
    else if |parts| == 1 then parts[0]
    else parts[0] + sep + Join(parts[1..], sep)
  }

  /** Text after an opening bracket: nothing, or a newline and the inner indentation. */
  function Open(gap: string, inner: string): string {
    if gap == "" then "" else "\n" + inner
  }

  /** Text before a closing bracket: nothing, or a newline and the outer indentation. */
  function Close(gap: string, indent: string): string {
    if gap == "" then "" else "\n" + indent
  }

  /** Between the colon and the value of an object member. */
  function ColonSpace(gap: string): string {
    if gap == "" then "" else " "
  }

  function Serialize(v: Value, gap: string, indent: string): string
    decreases v, 1
  {
    match v
    case JNull => "null"
    case JBool(b) => if b then "true" else "false"
    case JNumber(lit) => lit
    case JString(s) => Quote(s)
    case JArray(items) =>
      if items == [] then "[]"
      else
        var inner := indent + gap;
        "[" + Open(gap, inner) + Join(ItemTexts(v, gap, inner), "," + Open(gap, inner))
        + Close(gap, indent) + "]"
    case JObject(ms) =>
      if ms == [] then "{}"
      else
        var inner := indent + gap;
        "{" + Open(gap, inner) + Join(MemberTexts(v, gap, inner), "," + Open(gap, inner))
        + Close(gap, indent) + "}"
  }

  /** The serialised elements of an array, one per element. */
  function ItemTexts(v: Value, gap: string, inner: string): (ts: seq<string>)
    requires v.JArray?
    ensures |ts| == |v.items|
    decreases v, 0
  {
    seq(|v.items|, i requires 0 <= i < |v.items| => Serialize(v.items[i], gap, inner))
  }

  /** The serialised `"key": value` members of an object, one per member. */
  function MemberTexts(v: Value, gap: string, inner: string): (ts: seq<string>)
    requires v.JObject?
    ensures |ts| == |v.members|
    decreases v, 0
  {
    seq(|v.members|, i requires 0 <= i < |v.members| =>
      Quote(v.members[i].key) + ":" + ColonSpace(gap) + Serialize(v.members[i].value, gap, inner))
  }

  /** `JSON.stringify(v)`. */
  function Stringify(v: Value): string {
    Serialize(v, "", "")
  }

  /** `JSON.stringify(v, null, 2)`. */
  function PrettyPrint(v: Value): string {
    Serialize(v, "  ", "")
  }
}
