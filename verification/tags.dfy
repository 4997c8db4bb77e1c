/**
 * How the edit form stores the tags typed into its tag input: each tag is
 * trimmed and lower-cased and the list is written as a compact JSON array.
 */
module Tags {
  import opened Common
  import opened Events
  import opened Json
  import opened JsonParser
  import opened JsonPrinter
  import opened JsString
  import opened JsonRoundTrip
  import opened Formatter

  /** `tag.trim().toLowerCase()`. */
  function NormalizeTag(t: string): (r: string)
    ensures exists i, j :: 0 <= i <= j <= |t| && r == ToLowerCase(t[i..j])
                        && (forall k :: 0 <= k < i ==> IsWhitespace(t[k]))
                        && (forall k :: j <= k < |t| ==> IsWhitespace(t[k]))
    ensures IsTrimmed(r)
    ensures |r| <= |t|
    ensures forall i :: 0 <= i < |r| ==> !('A' <= r[i] <= 'Z')
  {
    ToLowerCaseKeepsTrimmed(Trim(t));
    ToLowerCaseLeavesNoUpper(Trim(t));
    TrimStripsWhitespace(t);
    ToLowerCase(Trim(t))
  }

  /** `Trim` removes whitespace, and only whitespace, from both ends. */
  lemma TrimStripsWhitespace(t: string)
    ensures exists i, j :: 0 <= i <= j <= |t| && Trim(t) == t[i..j]
                        && (forall k :: 0 <= k < i ==> IsWhitespace(t[k]))
                        && (forall k :: j <= k < |t| ==> IsWhitespace(t[k]))
  {
    var i, j :| 0 <= i <= j <= |t| && Trim(t) == t[i..j] && AllWhitespace(t[..i]) && AllWhitespace(t[j..]);
    assert forall k :: 0 <= k < i ==> t[k] == t[..i][k];
    assert forall k :: j <= k < |t| ==> t[k] == t[j..][k - j];
  }

  /** A normalised tag is its own normal form. */
  lemma NormalizeTagIdempotent(t: string)
    ensures NormalizeTag(NormalizeTag(t)) == NormalizeTag(t)
  {
    var r := NormalizeTag(t);
    TrimOfTrimmed(r);
    ToLowerCaseIdempotent(Trim(t));
  }

  function NormalizeTags(ts: seq<string>): (r: seq<string>)
    ensures |r| == |ts|
    ensures forall i :: 0 <= i < |ts| ==> r[i] == NormalizeTag(ts[i])
  {
    seq(|ts|, i requires 0 <= i < |ts| => NormalizeTag(ts[i]))
  }

  /** `updateTags(tags)`: the text stored in the form's `tags` field. */
  function UpdateTags(ts: seq<string>): (text: string)
    ensures SafelyParseJson(text, []) == StringArray(NormalizeTags(ts)).items
  {
    SafelyParseStringArray(NormalizeTags(ts), []);
    Stringify(StringArray(NormalizeTags(ts)))
  }

  /**
   * Submitting the list the tag input shows after an update stores the same
   * text again: the tag input's value is the normalised list, and normalising
   * it once more changes nothing.
   */
  lemma UpdateTagsResubmit(ts: seq<string>)
    ensures UpdateTags(NormalizeTags(ts)) == UpdateTags(ts)
  {
    var n := NormalizeTags(ts);
    forall i | 0 <= i < |ts| ensures NormalizeTags(n)[i] == n[i] {
      NormalizeTagIdempotent(ts[i]);
    }
    assert NormalizeTags(n) == n;
  }

  /**
   * What the list and the tag bar read from an event's `tags` field: the
   * elements of the JSON array it holds, or nothing when the field is empty,
   * not JSON, or JSON but not an array.
   */
  function TagArray(e: Event): (r: Option<seq<Value>>)
    ensures r.Some? <==> e.tags != "" && Parse(e.tags).Some? && Parse(e.tags).value.JArray?
    ensures r.Some? ==> Parse(e.tags) == Some(JArray(r.value))
  {
    if e.tags == "" then None
    else
      match Parse(e.tags)
      case Some(JArray(items)) => Some(items)
      case _ => None
  }

  /** The texts of the string elements of `items`, in order. */
  function StringsOf(items: seq<Value>): (r: seq<string>)
    ensures forall t :: t in r <==> JString(t) in items
    ensures |r| <= |items|
  {
    if items == [] then []
    else
      var rest := StringsOf(items[1..]);
      assert items == [items[0]] + items[1..];
      if items[0].JString? then [items[0].s] + rest else rest
  }

  /** The string elements of an event's parsed tags array. */
  function EventTagStrings(e: Event): (r: seq<string>)
    ensures forall t :: t in r <==> TagArray(e).Some? && JString(t) in TagArray(e).value
  {
    match TagArray(e)
    case None => []
    case Some(items) => StringsOf(items)
  }

  /** An event saved through the edit form carries exactly the normalised tags it was given. */
  lemma SavedTagsRead(e: Event, ts: seq<string>)
    requires e.tags == UpdateTags(ts)
    ensures EventTagStrings(e) == NormalizeTags(ts)
  {
    var n := NormalizeTags(ts);
    StringArrayRoundTrip(n);
    assert e.tags != "";
    StringsOfStringArray(n);
  }

  lemma {:induction false} StringsOfStringArray(ts: seq<string>)
    ensures StringsOf(StringArray(ts).items) == ts
  {
    if ts != [] {
      StringsOfStringArray(ts[1..]);
      assert StringArray(ts).items[1..] == StringArray(ts[1..]).items;
      assert [ts[0]] + ts[1..] == ts;
    }
  }
}
