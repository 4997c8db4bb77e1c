/**
 * The page-level state of the webapp: the bar of tag badges built from every
 * event's tags, and the selected tag a badge click toggles.
 */
module App {
  import opened Common
  import opened Json
  import opened JsString
  import opened Seqs
  import opened Events
  import opened Tags
  import opened EventList

  /** The `reduce`: the string tags of every event, concatenated in data order. */
  function CollectTags(events: seq<Event>): (r: seq<string>)
    ensures forall t :: t in r <==> exists e :: e in events && t in EventTagStrings(e)
  {
    if events == [] then []
    else
      var init := events[..|events| - 1];
      var last := events[|events| - 1];
      assert events == init + [last];
      CollectTags(init) + EventTagStrings(last)
  }

  /**
   * `tags`: every string tag of every event, each once, in the default
   * `sort()` order.
   */
  function DistinctTags(events: seq<Event>): (r: seq<string>)
    ensures forall t :: t in r <==> exists e :: e in events && t in EventTagStrings(e)
    ensures NoRepeats(r)
    ensures SortedBy(r, CodeUnitLe)
  {
    CodeUnitLeTotalPreorder();
    var d := Distinct(CollectTags(events));
    var r := Sort(d, CodeUnitLe);
    NoRepeatsOfPermutation(d, r);
    assert forall t :: t in r <==> t in d by {
      forall t ensures t in r <==> t in d {
        assert t in r <==> t in multiset(r);
        assert t in d <==> t in multiset(d);
      }
    }
    r
  }

  /** The tag filter section is rendered only when there is at least one badge. */
  predicate ShowsTagBar(events: seq<Event>) {
    |DistinctTags(events)| > 0
  }

  /**
   * Every badge selects at least one event, and every non-empty tag that lets
   * an event through the tag filter has a badge.
   */
  lemma BadgesMatchFilter(events: seq<Event>, tag: string)
    requires tag != ""
    ensures tag in DistinctTags(events) <==> exists e :: e in events && TagMatches(e, tag)
  {
    forall e | e in events
      ensures TagMatches(e, tag) <==> tag in EventTagStrings(e)
    {
    }
  }

  /** The tags a query selects: none for `""`, otherwise the query itself. */
  function Selection(tagQuery: string): set<string> {
    if tagQuery == "" then {} else {tagQuery}
  }

  /**
   * `updateSelectedTag(tag)`: clicking a badge selects that tag alone, and
   * clicking the selected badge again selects nothing.
   */
  function ToggleTag(prev: string, tag: string): (next: string)
    ensures Selection(next) == if tag in Selection(prev) || tag == "" then {} else {tag}
  {
    if prev != tag then tag else ""
  }

  /** Clicking the same badge twice, starting from any other selection, clears the tag filter. */
  lemma ToggleTwiceClears(prev: string, tag: string)
    requires prev != tag
    ensures ToggleTag(ToggleTag(prev, tag), tag) == ""
    ensures Selection(ToggleTag(ToggleTag(prev, tag), tag)) == {}
  {
  }

  /** A badge is drawn highlighted exactly when it is the selected tag. */
  predicate Highlighted(tagQuery: string, tag: string) {
    tagQuery == tag
  }

  /**
   * A click on a non-empty badge flips that badge's highlight and leaves no
   * other non-empty badge highlighted.
   */
  lemma ToggleHighlights(prev: string, tag: string, other: string)
    requires tag != "" && other != "" && other != tag
    ensures Highlighted(ToggleTag(prev, tag), tag) <==> !Highlighted(prev, tag)
    ensures !Highlighted(ToggleTag(prev, tag), other)
  {
  }
}
