/**
 * What an event's accordion entry shows: the header line, and in the panel
 * either the preview of the stored documentation or the edit form.
 */
module Views {
  import opened Common
  import opened Json
  import opened JsonParser
  import opened JsString
  import opened Seqs
  import opened Events
  import opened Formatter
  import opened Tags
  import opened Editor
  import Summary

  /** A documentation field of the preview: its text, or the "Undocumented" placeholder. */
  datatype FieldDisplay = Undocumented | Shown(text: string)

  /** The tag row of the preview: badges in display order, or "No tags". */
  datatype TagsDisplay = NoTags | Badges(tags: seq<Value>)

  datatype Panel = PreviewPanel | EditPanel

  /** The red "Missing documentation" icon in the header. */
  predicate MissingDocumentation(item: Event) {
    item.description == ""
  }

  /** The type badge of the header, present when the event has a type. */
  function HeaderBadge(item: Event): (b: Option<string>)
    ensures b.Some? <==> item.eventType != ""
    ensures b.Some? ==> b.value == item.eventType
  {
    if item.eventType != "" then Some(item.eventType) else None
  }

  function PanelOf(s: ItemState): (p: Panel)
    ensures p == EditPanel <==> s.editMode
  {
    if s.editMode then EditPanel else PreviewPanel
  }

  /** The yellow deprecation alert, shown by the split variant's preview only. */
  predicate ShowsDeprecationAlert(v: Variant, item: Event) {
    v == Split && IsDeprecated(item)
  }

  /** The header's icon marks exactly the events the summary counts as undocumented. */
  lemma MissingDocumentationMatchesSummary(e: Event)
    ensures MissingDocumentation(e) <==> !Summary.Documented(e)
  {
  }

  /**
   * Marking an event deprecated, or clearing the mark, changes neither its
   * missing-documentation icon nor any summary counter.
   */
  lemma DeprecationKeepsUndocumented(events: seq<Event>, i: nat, d: Option<bool>)
    requires i < |events|
    ensures MissingDocumentation(events[i].(deprecated := d)) == MissingDocumentation(events[i])
    ensures Summary.EventStats(events[i := events[i].(deprecated := d)]) == Summary.EventStats(events)
  {
    var ys := events[i := events[i].(deprecated := d)];
    var p := Summary.Documented;
    var q := (e: Event) => !Summary.Documented(e);
    assert events == events[..i] + [events[i]] + events[i + 1..];
    assert ys == events[..i] + [ys[i]] + events[i + 1..];
    FilterConcat(events[..i] + [events[i]], events[i + 1..], p);
    FilterConcat(events[..i], [events[i]], p);
    FilterConcat(events[..i] + [ys[i]], events[i + 1..], p);
    FilterConcat(events[..i], [ys[i]], p);
    FilterConcat(events[..i] + [events[i]], events[i + 1..], q);
    FilterConcat(events[..i], [events[i]], q);
    FilterConcat(events[..i] + [ys[i]], events[i + 1..], q);
    FilterConcat(events[..i], [ys[i]], q);
  }

  /**
   * The split variant's preview shows the deprecation alert exactly when
   * editing would seed the buffer with `deprecated` true; the wired variant
   * never shows it.
   */
  lemma DeprecationAlertMatchesSeed(v: Variant, item: Event)
    ensures ShowsDeprecationAlert(v, item) <==> Seed(v, item).deprecated == Some(true)
    ensures v == Wired ==> !ShowsDeprecationAlert(v, item)
  {
  }

  function TypeView(item: Event): (f: FieldDisplay)
    ensures f.Shown? <==> item.eventType != ""
    ensures f.Shown? ==> f.text == item.eventType
  {
    if item.eventType != "" then Shown(item.eventType) else Undocumented
  }

  function DescriptionView(item: Event): (f: FieldDisplay)
    ensures f.Shown? <==> item.description != ""
    ensures f.Shown? ==> f.text == item.description
  {
    if item.description != "" then Shown(item.description) else Undocumented
  }

  /** The format, pretty-printed; the shown text denotes the stored JSON value. */
  function FormatView(item: Event): (f: FieldDisplay)
    ensures f.Shown? <==> item.format != ""
    ensures f.Shown? ==> f.text != ""
    ensures f.Shown? && Parse(item.format).Some? ==> Parse(f.text) == Parse(item.format)
    ensures f.Shown? && Parse(item.format).None? ==> f.text == item.format
  {
    if item.format != "" then Shown(MakeJsonNice(item.format)) else Undocumented
  }

  /**
   * `String(x)` for a parsed JSON value, the key the default `sort()` compares:
   * an array joins its elements with `,`, writing `null` elements as nothing,
   * and an object is `[object Object]`.
   */
  function ToJsString(v: Value): string
    decreases v, 1
  {
    match v
    case JNull => "null"
    case JBool(b) => if b then "true" else "false"
    case JNumber(lit) => lit
    case JString(s) => s
    case JArray(items) => JoinElements(v, 0)
    case JObject(_) => "[object Object]"
  }

  /** `items.slice(k).join(",")` for the elements of array `v`. */
  function JoinElements(v: Value, k: nat): string
    requires v.JArray? && k <= |v.items|
    decreases v, 0, |v.items| - k
  {
    if k == |v.items| then ""
    else
      var item := v.items[k];
      var text := if item.JNull? then "" else ToJsString(item);
      if k + 1 == |v.items| then text else text + "," + JoinElements(v, k + 1)
  }

  /** The default `sort()` order on parsed values. */
  function DisplayLe(a: Value, b: Value): bool {
    CodeUnitLe(ToJsString(a), ToJsString(b))
  }

  lemma DisplayLeTotalPreorder()
    ensures TotalPreorder(DisplayLe)
  {
    CodeUnitLeTotalPreorder();
    ByKeyTotalPreorder(ToJsString, CodeUnitLe);
    assert forall a, b :: DisplayLe(a, b) == ByKey(ToJsString, CodeUnitLe)(a, b);
  }

  /**
   * The tag row: badges when `tags` is non-empty and holds a non-empty array,
   * the array's elements sorted by `sort()`; otherwise "No tags".
   */
  function TagsView(item: Event): (t: TagsDisplay)
    ensures t.Badges? <==> item.tags != "" && |SafelyParseJson(item.tags, [])| > 0
    ensures t.Badges? ==> multiset(t.tags) == multiset(SafelyParseJson(item.tags, []))
    ensures t.Badges? ==> SortedBy(t.tags, DisplayLe)
  {
    if item.tags != "" && |SafelyParseJson(item.tags, [])| > 0 then
      DisplayLeTotalPreorder();
      Badges(Sort(SafelyParseJson(item.tags, []), DisplayLe))
    else NoTags
  }

  /** Tags saved through the edit form show as one badge per normalised tag. */
  lemma SavedTagsShown(item: Event, ts: seq<string>)
    requires item.tags == UpdateTags(ts) && ts != []
    ensures TagsView(item).Badges?
    ensures multiset(TagsView(item).tags) == multiset(StringArray(NormalizeTags(ts)).items)
  {
    assert |StringArray(NormalizeTags(ts)).items| == |ts|;
    assert item.tags != "" by {
      assert SafelyParseJson(item.tags, []) != [];
    }
  }
}
