/** The three counters on the summary cards. */
module Summary {
  import opened Seqs
  import opened Events

  predicate Documented(e: Event) {
    e.description != ""
  }

  datatype Stats = Stats(undocumented: nat, documented: nat, total: nat)

  /**
   * `eventStats`: events with an empty description, events with one, and all
   * events. The first two partition the data, so they add up to the third.
   */
  function EventStats(events: seq<Event>): (r: Stats)
    ensures r.undocumented + r.documented == r.total == |events|
    ensures r.undocumented == |Filter(events, e => !Documented(e))|
    ensures r.documented == |Filter(events, Documented)|
  {
    FilterSplits(events, Documented, e => !Documented(e));
    Stats(|Filter(events, e => !Documented(e))|, |Filter(events, Documented)|, |events|)
  }

  /** The counters depend only on which events there are, not on their order. */
  lemma StatsOfPermutation(xs: seq<Event>, ys: seq<Event>)
    requires multiset(xs) == multiset(ys)
    ensures EventStats(xs) == EventStats(ys)
  {
    FilterLengthOfPermutation(xs, ys, Documented);
    FilterLengthOfPermutation(xs, ys, e => !Documented(e));
    assert |xs| == |multiset(xs)| == |ys|;
  }

  /** Adding a description to one undocumented event moves one count across. */
  lemma DocumentingOneEvent(xs: seq<Event>, i: nat, d: string)
    requires i < |xs| && !Documented(xs[i]) && d != ""
    ensures var ys := xs[i := xs[i].(description := d)];
            EventStats(ys).documented == EventStats(xs).documented + 1
            && EventStats(ys).undocumented + 1 == EventStats(xs).undocumented
            && EventStats(ys).total == EventStats(xs).total
  {
    var ys := xs[i := xs[i].(description := d)];
    assert xs == xs[..i] + [xs[i]] + xs[i + 1..];
    assert ys == xs[..i] + [ys[i]] + xs[i + 1..];
    FilterConcat(xs[..i] + [xs[i]], xs[i + 1..], Documented);
    FilterConcat(xs[..i], [xs[i]], Documented);
    FilterConcat(xs[..i] + [ys[i]], xs[i + 1..], Documented);
    FilterConcat(xs[..i], [ys[i]], Documented);
  }
}
