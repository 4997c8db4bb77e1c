/**
 * The filtered, sorted list of events the list view shows: events whose name
 * contains the search text (ignoring case) and, when a tag is selected, whose
 * tags array holds that tag, ordered by name.
 */
module EventList {
  import opened Common
  import opened Json
  import opened JsString
  import opened Seqs
  import opened Events
  import opened Tags

  /** `eventName.toLowerCase().includes(searchQuery.toLowerCase())`. */
  predicate NameMatches(e: Event, searchQuery: string) {
    Includes(ToLowerCase(e.eventName), ToLowerCase(searchQuery))
  }

  /**
   * The tag filter: no selected tag lets every event through; otherwise the
   * event's tags must parse as an array holding the selected tag as a string.
   * An empty, unparsable or non-array `tags` field fails the filter.
   */
  predicate TagMatches(e: Event, tagQuery: string) {
    tagQuery == "" || (TagArray(e).Some? && JString(tagQuery) in TagArray(e).value)
  }

  predicate Shown(e: Event, searchQuery: string, tagQuery: string) {
    NameMatches(e, searchQuery) && TagMatches(e, tagQuery)
  }

  function EventName(e: Event): string {
    e.eventName
  }

  /**
   * `filteredEvents`: nothing while the data has not arrived; otherwise each
   * event passing both filters, as often as it occurs in the data, sorted by
   * name under `localeLe`, the "no later than" order of `localeCompare`.
   */
  function FilteredEvents(data: Option<seq<Event>>, searchQuery: string, tagQuery: string,
                          localeLe: (string, string) -> bool): (r: seq<Event>)
    requires TotalPreorder(localeLe)
    ensures data.None? ==> r == []
    ensures data.Some? ==>
              forall e :: multiset(r)[e] ==
                          if Shown(e, searchQuery, tagQuery) then multiset(data.value)[e] else 0
    ensures data.Some? ==> |r| <= |data.value|
    ensures SortedBy(r, ByKey(EventName, localeLe))
  {
    ByKeyTotalPreorder(EventName, localeLe);
    match data
    case None => []
    case Some(events) =>
      var byName := Filter(events, e => NameMatches(e, searchQuery));
      var byTag := Filter(byName, e => TagMatches(e, tagQuery));
      Sort(byTag, ByKey(EventName, localeLe))
  }

  lemma IncludesEmpty(s: string)
    ensures Includes(s, "")
  {
    assert OccursAt(s, "", 0);
  }

  /** With no search text and no selected tag the list shows every event. */
  lemma NoQueryShowsAll(events: seq<Event>, localeLe: (string, string) -> bool)
    requires TotalPreorder(localeLe)
    ensures multiset(FilteredEvents(Some(events), "", "", localeLe)) == multiset(events)
  {
    var r := FilteredEvents(Some(events), "", "", localeLe);
    forall e ensures multiset(r)[e] == multiset(events)[e] {
      IncludesEmpty(ToLowerCase(e.eventName));
      assert ToLowerCase("") == "";
      assert Shown(e, "", "");
    }
  }

  /** Selecting a tag only ever removes events from the list. */
  lemma TagNarrows(events: seq<Event>, searchQuery: string, tagQuery: string,
                   localeLe: (string, string) -> bool)
    requires TotalPreorder(localeLe)
    ensures multiset(FilteredEvents(Some(events), searchQuery, tagQuery, localeLe))
            <= multiset(FilteredEvents(Some(events), searchQuery, "", localeLe))
  {
    var r := FilteredEvents(Some(events), searchQuery, tagQuery, localeLe);
    var all := FilteredEvents(Some(events), searchQuery, "", localeLe);
    forall e ensures multiset(r)[e] <= multiset(all)[e] {
      assert TagMatches(e, "");
    }
  }
}
