/**
 * The two JSON helpers of the webapp: `makeJsonNice`, which re-indents a
 * JSON text for display, and `safelyParseJson`, which reads a JSON text as an
 * array and falls back to a default for anything else.
 */
module Formatter {
  import opened Common
  import opened Json
  import opened JsonParser
  import opened JsonPrinter
  import opened JsonRoundTrip

  /**
   * `makeJsonNice(json)`: `""` for `""`; the two-space pretty-printed form
   * when `json` parses; the text unchanged when it does not. The displayed text
   * always denotes the same JSON value as the stored one.
   */
  function MakeJsonNice(json: string): (r: string)
    ensures r == "" <==> json == ""
    ensures Parse(json).None? ==> r == json
    ensures Parse(json).Some? ==> Parse(r) == Parse(json)
  {
    if json == "" then ""
    else
      match Parse(json)
      case None => json
      case Some(v) =>
        PrettyPrintRoundTrip(v);
        SerializeStart(v, "  ", "");
        PrettyPrint(v)
  }

  /** Formatting formatted text changes nothing. */
  lemma MakeJsonNiceIdempotent(json: string)
    ensures MakeJsonNice(MakeJsonNice(json)) == MakeJsonNice(json)
  {
    var r := MakeJsonNice(json);
    if json != "" && Parse(json).Some? {
      assert Parse(r) == Parse(json);
      assert r != "";
    }
  }

  /**
   * `safelyParseJson(text, defaultValue)`: the elements of the array `text`
   * denotes, or `defaultValue` when `text` is not JSON or not an array.
   */
  function SafelyParseJson(text: string, defaultValue: seq<Value>): (r: seq<Value>)
    ensures (exists items :: Parse(text) == Some(JArray(items))) ==> Parse(text) == Some(JArray(r))
    ensures (forall items :: Parse(text) != Some(JArray(items))) ==> r == defaultValue
  {
    match Parse(text)
    case Some(JArray(items)) => items
    case _ => defaultValue
  }

  /** The compact text of a string array reads back as that array's elements. */
  lemma SafelyParseStringArray(ts: seq<string>, defaultValue: seq<Value>)
    ensures SafelyParseJson(Stringify(StringArray(ts)), defaultValue) == StringArray(ts).items
  {
    StringArrayRoundTrip(ts);
  }
}
