/** Aligning per-day data with the plotting window (`series_from_dict`),
    and what the plotted series say about merge, prune and event counts. */
module Aggregator {
  import opened Wrappers
  import opened Dates
  import opened TrafficHistory
  import opened Events

  /** series_from_dict without `key`: the count of each window date, 0 for
      a date the map lacks, in window order. */
  function SeriesFromCounts(window: seq<Day>, counts: map<Day, int>): (r: seq<int>)
    ensures |r| == |window|
    ensures forall i :: 0 <= i < |r| && window[i] !in counts ==> r[i] == 0
    ensures forall i :: 0 <= i < |r| && window[i] in counts ==> r[i] == counts[window[i]]
  {
    seq(|window|, i requires 0 <= i < |window| => if window[i] in counts then counts[window[i]] else 0)
  }

  /** series_from_dict with `key`: field `key` of each window date's history
      record, 0 when the date has no record or the record lacks the field. */
  function SeriesFromHistory(window: seq<Day>, hist: History, key: Field): (r: seq<int>)
    ensures |r| == |window|
    ensures forall i :: 0 <= i < |r| && window[i] !in hist ==> r[i] == 0
    ensures forall i :: 0 <= i < |r| && window[i] in hist && hist[window[i]].Get(key).None? ==> r[i] == 0
    ensures forall i :: 0 <= i < |r| && window[i] in hist && hist[window[i]].Get(key).Some? ==>
              r[i] == hist[window[i]].Get(key).value
  {
    seq(|window|, i requires 0 <= i < |window| => RecordAt(hist, window[i]).Get(key).GetOr(0))
  }

  /** The traffic series drawn from the merged history: a window date that
      was just fetched shows the fetched value, any other date shows what
      the stored history had. */
  lemma SeriesAfterMerge(window: seq<Day>, hist: History, clones14: map<Day, int>, views14: map<Day, int>, i: int)
    requires 0 <= i < |window|
    ensures window[i] in clones14 ==>
              SeriesFromHistory(window, Merged(hist, clones14, views14), Clones)[i] == clones14[window[i]]
    ensures window[i] !in clones14 ==>
              SeriesFromHistory(window, Merged(hist, clones14, views14), Clones)[i] == SeriesFromHistory(window, hist, Clones)[i]
    ensures window[i] in views14 ==>
              SeriesFromHistory(window, Merged(hist, clones14, views14), Views)[i] == views14[window[i]]
    ensures window[i] !in views14 ==>
              SeriesFromHistory(window, Merged(hist, clones14, views14), Views)[i] == SeriesFromHistory(window, hist, Views)[i]
  {
  }

  /** Pruning cannot change a traffic series whose window ends today and
      spans at most 91 days: every window date is at or after the cutoff. */
  lemma SeriesUnaffectedByPrune(hist: History, today: Day, days: int, key: Field)
    requires days <= RetentionDays + 1
    ensures SeriesFromHistory(DateRange(today, days), Prune(hist, today), key) == SeriesFromHistory(DateRange(today, days), hist, key)
  {
  }

  /** The commits series: `fetch_commits_per_day` builds its map in window
      order, so its values are the series of the window; element `i` is the
      number of commits dated on the `i`-th window date. */
  lemma CommitSeriesCounts(counts: map<Day, int>, events: seq<Event>, parse: DateParser, today: Day, days: int, i: int)
    requires IsWindowTally(counts, events, parse, today, days)
    requires 0 <= i < |DateRange(today, days)|
    ensures SeriesFromCounts(DateRange(today, days), counts)[i] == Dated(events, parse, DateRange(today, days)[i])
  {
  }

  /** The worked example: an empty history and empty views, with clones
      5 and 3 on two consecutive days, plot clones [5, 3] and views [0, 0]. */
  lemma MergeExample(d: Day)
    ensures var hist := Merged(map[], map[d := 5, d + 1 := 3], map[]);
            && SeriesFromHistory([d, d + 1], hist, Clones) == [5, 3]
            && SeriesFromHistory([d, d + 1], hist, Views) == [0, 0]
  {
  }
}
