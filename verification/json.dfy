/**
 * JSON values as `JSON.parse` produces them and `JSON.stringify` consumes them
 * (the grammar of RFC 8259, sections 2-7), with the lexical helpers shared by
 * the parser and the printer.
 *
 * A number is kept as the literal text it was written with: the conversion to
 * an IEEE double that JavaScript performs is not part of this model.
 */
module Json {
  import opened Common

  datatype Value =
    | JNull
    | JBool(b: bool)
    | JNumber(literal: string)
    | JString(s: string)
    | JArray(items: seq<Value>)
    | JObject(members: seq<Member>)

  datatype Member = Member(key: string, value: Value)

  /** A JSON array of JSON strings, what `JSON.stringify` makes of a `string[]`. */
  function StringArray(ts: seq<string>): (v: Value)
    ensures v.JArray? && |v.items| == |ts|
    ensures forall i :: 0 <= i < |ts| ==> v.items[i] == JString(ts[i])
  {
    JArray(seq(|ts|, i requires 0 <= i < |ts| => JString(ts[i])))
  }

  /** The insignificant whitespace of RFC 8259 section 2. */
  predicate IsWs(c: char) {
    c == ' ' || c == '\t' || c == '\n' || c == '\r'
  }

  ghost predicate AllWs(s: string) {
    forall i :: 0 <= i < |s| ==> IsWs(s[i])
  }

  ghost predicate AllSpaces(s: string) {
    forall i :: 0 <= i < |s| ==> s[i] == ' '
  }

  /** `s` without its leading whitespace. */
  function SkipWs(s: string): (r: string)
    ensures |r| <= |s|
    ensures r == [] || !IsWs(r[0])
  {
    if s != [] && IsWs(s[0]) then SkipWs(s[1..]) else s
  }

  lemma SkipWsOfNonWs(s: string)
    requires s == [] || !IsWs(s[0])
    ensures SkipWs(s) == s
  {
  }

  lemma {:induction false} SkipWsAppend(w: string, s: string)
    requires AllWs(w)
    ensures SkipWs(w + s) == SkipWs(s)
  {
    if w != [] {
      assert IsWs((w + s)[0]) && AllWs(w[1..]) by {
        assert (w + s)[0] == w[0];
        assert forall i :: 0 <= i < |w[1..]| ==> w[1..][i] == w[i + 1];
      }
      assert (w + s)[1..] == w[1..] + s;
      SkipWsAppend(w[1..], s);
    } else {
      assert w + s == s;
    }
  }

  predicate IsDigit(c: char) {
    '0' <= c <= '9'
  }

  predicate IsHexDigit(c: char) {
    IsDigit(c) || 'a' <= c <= 'f' || 'A' <= c <= 'F'
  }

  function HexValue(c: char): (n: nat)
    requires IsHexDigit(c)
    ensures n < 16
  {
    if IsDigit(c) then c as int - '0' as int
    else if 'a' <= c <= 'f' then c as int - 'a' as int + 10
    else c as int - 'A' as int + 10
  }

  /** The lower-case hexadecimal digit `JSON.stringify` writes for `n`. */
  function HexDigit(n: nat): (c: char)
    requires n < 16
    ensures IsHexDigit(c) && HexValue(c) == n
  {
    if n < 10 then ('0' as int + n) as char else ('a' as int + n - 10) as char
  }

  /** Number of decimal digits at the start of `s`. */
  function Digits(s: string): (k: nat)
    ensures k <= |s|
    ensures forall i :: 0 <= i < k ==> IsDigit(s[i])
    ensures k == |s| || !IsDigit(s[k])
  {
    if s != [] && IsDigit(s[0]) then 1 + Digits(s[1..]) else 0
  }

  /** The characters that may occur inside a number literal. */
  predicate IsNumberChar(c: char) {
    IsDigit(c) || c == '-' || c == '+' || c == '.' || c == 'e' || c == 'E'
  }

  /** Length of the run of number characters at the start of `s`. */
  function NumberSpan(s: string): (k: nat)
    ensures k <= |s|
    ensures forall i :: 0 <= i < k ==> IsNumberChar(s[i])
    ensures k == |s| || !IsNumberChar(s[k])
  {
    if s != [] && IsNumberChar(s[0]) then 1 + NumberSpan(s[1..]) else 0
  }

  lemma {:induction false} NumberSpanAppend(t: string, rest: string)
    requires forall i :: 0 <= i < |t| ==> IsNumberChar(t[i])
    requires rest == [] || !IsNumberChar(rest[0])
    ensures NumberSpan(t + rest) == |t|
  {
    if t != [] {
      assert (t + rest)[1..] == t[1..] + rest;
      NumberSpanAppend(t[1..], rest);
    }
  }

  /** Where the exponent part `e[+-]digits` starting at `i` ends, if there is one. */
  function ExponentEnd(t: string, i: nat): Option<nat>
    requires i <= |t|
  {
    if i < |t| && (t[i] == 'e' || t[i] == 'E') then
      var j := if i + 1 < |t| && (t[i + 1] == '+' || t[i + 1] == '-') then i + 2 else i + 1;
      if j <= |t| && Digits(t[j..]) > 0 then Some(j + Digits(t[j..])) else None
    else Some(i)
  }

  /** Where the fraction part `.digits` starting at `i` ends, if there is one. */
  function FractionEnd(t: string, i: nat): Option<nat>
    requires i <= |t|
  {
    if i < |t| && t[i] == '.' then
      if Digits(t[i + 1..]) > 0 then Some(i + 1 + Digits(t[i + 1..])) else None
    else Some(i)
  }

  /**
   * The number grammar of RFC 8259 section 6: an optional minus, an integer
   * part without leading zeros, an optional fraction, an optional exponent.
   */
  predicate IsNumberLiteral(t: string) {
    var i := if t != [] && t[0] == '-' then 1 else 0;
    i < |t| && IsDigit(t[i]) &&
    var j := if t[i] == '0' then i + 1 else i + Digits(t[i..]);
    match FractionEnd(t, j)
    case None => false
    case Some(k) =>
      match ExponentEnd(t, k)
      case None => false
      case Some(m) => m == |t|
  }

  /** Every number inside `v` is a literal of the JSON number grammar. */
  ghost predicate WellFormed(v: Value) {
    match v
    case JNumber(lit) =>
      IsNumberLiteral(lit) && forall i :: 0 <= i < |lit| ==> IsNumberChar(lit[i])
    case JArray(items) => forall i :: 0 <= i < |items| ==> WellFormed(items[i])
    case JObject(ms) => forall i :: 0 <= i < |ms| ==> WellFormed(ms[i].value)
    case _ => true
  }

  lemma StringArrayWellFormed(ts: seq<string>)
    ensures WellFormed(StringArray(ts))
  {
  }
}
