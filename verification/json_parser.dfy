/**
 * `JSON.parse` as a total function: `None` where JavaScript throws a
 * `SyntaxError`. Each parsing function consumes a prefix of its input and
 * returns the value read together with the unconsumed rest.
 *
 * A `\u` escape of a lone UTF-16 surrogate, which JavaScript accepts, is
 * rejected here because a Dafny character cannot hold one.
 */
module JsonParser {
  import opened Common
  import opened Json

  function HexQuad(s: string): (n: nat)
    requires |s| >= 4 && IsHexDigit(s[0]) && IsHexDigit(s[1]) && IsHexDigit(s[2]) && IsHexDigit(s[3])
    ensures n < 0x10000
  {
    ((HexValue(s[0]) * 16 + HexValue(s[1])) * 16 + HexValue(s[2])) * 16 + HexValue(s[3])
  }

  predicate StartsWithHexQuad(s: string) {
    |s| >= 4 && IsHexDigit(s[0]) && IsHexDigit(s[1]) && IsHexDigit(s[2]) && IsHexDigit(s[3])
  }

  /** The escape sequence after a backslash (RFC 8259 section 7). */
  function ParseEscape(s: string): (r: Option<(char, string)>)
    ensures r.Some? ==> |r.value.1| < |s|
  {
    if s == [] then None
    else if s[0] == '"' then Some(('"', s[1..]))
    else if s[0] == '\\' then Some(('\\', s[1..]))
    else if s[0] == '/' then Some(('/', s[1..]))
    else if s[0] == 'b' then Some((0x08 as char, s[1..]))
    else if s[0] == 'f' then Some((0x0C as char, s[1..]))
    else if s[0] == 'n' then Some(('\n', s[1..]))
    else if s[0] == 'r' then Some(('\r', s[1..]))
    else if s[0] == 't' then Some(('\t', s[1..]))
    else if s[0] == 'u' && StartsWithHexQuad(s[1..]) then
      var hi := HexQuad(s[1..]);
      if 0xD800 <= hi < 0xDC00 then
        if |s| >= 7 && s[5] == '\\' && s[6] == 'u' && StartsWithHexQuad(s[7..]) then
          var lo := HexQuad(s[7..]);
          if 0xDC00 <= lo < 0xE000 then
            Some(((0x10000 + (hi - 0xD800) * 0x400 + (lo - 0xDC00)) as char, s[11..]))
          else None
        else None
      else if 0xDC00 <= hi < 0xE000 then None
      else Some((hi as char, s[5..]))
    else None
  }

  /**
   * The characters of a string literal after its opening quote, up to and
   * excluding the closing quote; control characters must be escaped.
   */
  function ParseStringBody(s: string): (r: Option<(string, string)>)
    ensures r.Some? ==> |r.value.1| < |s|
    decreases |s|
  {
    if s == [] then None
    else if s[0] == '"' then Some(([], s[1..]))
    else if s[0] == '\\' then
      match ParseEscape(s[1..])
      case None => None
      case Some((c, rest)) =>
        match ParseStringBody(rest)
        case None => None
        case Some((t, rest')) => Some(([c] + t, rest'))
    else if (s[0] as int) < 0x20 then None
    else
      match ParseStringBody(s[1..])
      case None => None
      case Some((t, rest')) => Some(([s[0]] + t, rest'))
  }

  /** One JSON value starting exactly at `s[0]`. */
  function ParseValue(s: string): (r: Option<(Value, string)>)
    ensures r.Some? ==> |r.value.1| < |s| && WellFormed(r.value.0)
    decreases |s|, 0
  {
    if s == [] then None
    else if |s| >= 4 && s[..4] == "null" then Some((JNull, s[4..]))
    else if |s| >= 4 && s[..4] == "true" then Some((JBool(true), s[4..]))
    else if |s| >= 5 && s[..5] == "false" then Some((JBool(false), s[5..]))
    else if s[0] == '"' then
      match ParseStringBody(s[1..])
      case None => None
      case Some((t, rest)) => Some((JString(t), rest))
    else if s[0] == '[' then ParseArray(SkipWs(s[1..]))
    else if s[0] == '{' then ParseObject(SkipWs(s[1..]))
    else if s[0] == '-' || IsDigit(s[0]) then
      var n := NumberSpan(s);
      if IsNumberLiteral(s[..n]) then Some((JNumber(s[..n]), s[n..])) else None
    else None
  }

  /** The rest of an array after `[` and whitespace. */
  function ParseArray(s: string): (r: Option<(Value, string)>)
    ensures r.Some? ==> |r.value.1| < |s| && WellFormed(r.value.0)
    decreases |s|, 2
  {
    if s != [] && s[0] == ']' then Some((JArray([]), s[1..]))
    else
      match ParseElements(s)
      case None => None
      case Some((items, rest)) => Some((JArray(items), rest))
  }

  /** One or more comma-separated values and the closing `]`. */
  function ParseElements(s: string): (r: Option<(seq<Value>, string)>)
    ensures r.Some? ==> |r.value.1| < |s|
    ensures r.Some? ==> forall i :: 0 <= i < |r.value.0| ==> WellFormed(r.value.0[i])
    decreases |s|, 1
  {
    match ParseValue(s)
    case None => None
    case Some((v, r1)) =>
      var r2 := SkipWs(r1);
      if r2 == [] then None
      else if r2[0] == ']' then Some(([v], r2[1..]))
      else if r2[0] == ',' then
        match ParseElements(SkipWs(r2[1..]))
        case None => None
        case Some((vs, rest)) => Some(([v] + vs, rest))
      else None
  }

  /** The rest of an object after `{` and whitespace. */
  function ParseObject(s: string): (r: Option<(Value, string)>)
    ensures r.Some? ==> |r.value.1| < |s| && WellFormed(r.value.0)
    decreases |s|, 2
  {
    if s != [] && s[0] == '}' then Some((JObject([]), s[1..]))
    else
      match ParseMembers(s)
      case None => None
      case Some((ms, rest)) => Some((JObject(ms), rest))
  }

  /** One `"key": value` member. */
  function ParseMember(s: string): (r: Option<(Member, string)>)
    ensures r.Some? ==> |r.value.1| < |s| && WellFormed(r.value.0.value)
    decreases |s|, 0
  {
    if s == [] || s[0] != '"' then None
    else
      match ParseStringBody(s[1..])
      case None => None
      case Some((key, r1)) =>
        var r2 := SkipWs(r1);
        if r2 == [] || r2[0] != ':' then None
        else
          match ParseValue(SkipWs(r2[1..]))
          case None => None
          case Some((v, r3)) => Some((Member(key, v), r3))
  }

  /** One or more comma-separated members and the closing `}`. */
  function ParseMembers(s: string): (r: Option<(seq<Member>, string)>)
    ensures r.Some? ==> |r.value.1| < |s|
    ensures r.Some? ==> forall i :: 0 <= i < |r.value.0| ==> WellFormed(r.value.0[i].value)
    decreases |s|, 1
  {
    match ParseMember(s)
    case None => None
    case Some((m, r1)) =>
      var r2 := SkipWs(r1);
      if r2 == [] then None
      else if r2[0] == '}' then Some(([m], r2[1..]))
      else if r2[0] == ',' then
        match ParseMembers(SkipWs(r2[1..]))
        case None => None
        case Some((ms, rest)) => Some(([m] + ms, rest))
      else None
  }

  /** `JSON.parse(text)`: one value, surrounded only by whitespace. */
  function Parse(text: string): (r: Option<Value>)
    ensures r.Some? ==> WellFormed(r.value)
  {
    match ParseValue(SkipWs(text))
    case None => None
    case Some((v, rest)) => if SkipWs(rest) == [] then Some(v) else None
  }

  /** `JSON.parse` throws on the empty string. */
  lemma ParseEmpty()
    ensures Parse("") == None
  {
  }
}
