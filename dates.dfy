/** Calendar dates as day numbers, and the look-back window ending today. */
module Dates {
  import opened Wrappers

  /** A calendar date as a day number: the day after `d` is `d + 1`. The
      ISO `YYYY-MM-DD` strings that key the history file are an injective
      encoding of these, so the model keys everything by `Day`. */
  type Day = int

  /** An ISO-8601 timestamp as the hosting API sends it. */
  type Timestamp = string

  /** iso_date: the calendar date of the timestamp in its own offset (UTC
      for the API's `Z` stamps), or None when the text
      does not parse (in the source `datetime.fromisoformat` then raises). */
  type DateParser = Timestamp -> Option<Day>

  /** daterange: the last `days` dates up to and including `today`, oldest
      first; empty when `days` is not positive. */
  function DateRange(today: Day, days: int): (r: seq<Day>)
    ensures |r| == if days > 0 then days else 0
    ensures |r| > 0 ==> r[|r| - 1] == today
    ensures forall i :: 0 <= i < |r| - 1 ==> r[i + 1] == r[i] + 1
    ensures forall d :: d in r <==> today - days < d <= today
  {
    var n := if days > 0 then days else 0;
    var r := seq(n, i requires 0 <= i < n => today - (n - 1 - i));
    assert forall d :: today - days < d <= today ==> d in r by {
      forall d | today - days < d <= today ensures d in r {
        assert r[d - today + n - 1] == d;
      }
    }
    r
  }
}
