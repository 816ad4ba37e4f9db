# Traffic metrics pipeline — a Dafny model

`scripts/generate_metrics.py` gathers a repository's daily activity from the hosting API. It covers clones, views, commits and stars, and draws the last four weeks of it.

- **Clones and views.** The API gives at most 14 days of these. The script buckets them per day and merges them into a history file kept on disk. It prunes that history to 90 days when it saves it.
- **Stars and commits.** These are counted per day of the plotting window.

This project models that pipeline once the network, the clock and the file system are taken out:

- **Paging** (`api_client.dfy`).
  - An endpoint is an oracle from page number to response: `NoContent` (status 204), `Failure(status)`, or `Json(body)`.
  - `_pages` is specified by the recursive function `PagesFrom` and implemented by the loop `FetchPages`.
  - The hand-written commit loop is specified by `CommitPagesFrom` and implemented by `FetchCommits`. Lemmas prove that each loop terminates, respects its page cap, requests pages 1, 2, … in order, and stops exactly where the source stops.
- **Dates** (`dates.dfy`).
  - A date is a day number, and the ISO `YYYY-MM-DD` keys are taken to be an injective encoding of day numbers.
  - `iso_date` is an abstract parser `Timestamp -> Option<Day>`. `None` stands for `datetime.fromisoformat` raising.
  - `today` is a parameter.
- **Traffic history** (`traffic_history.dfy`).
  - Per-day bucketing of the traffic points.
  - The merge of the fresh 14-day maps into the stored history: an update of one field per record, with its frame.
  - The 90-day retention prune.
- **Events** (`events.dfy`). The star and commit window counts.
- **Series** (`aggregator.dfy`). `series_from_dict` and what the plotted series say about the data behind them.

Three behaviours of the code are easy to miss:

- A failure status, including 404, aborts the run; it does not end the paging quietly.
- A timestamp that does not parse aborts the run with `BadTimestamp`; such records are not skipped. Only a record that lacks the timestamp field is skipped (a star without `starred_at`, a commit without `commit.author.date`).
- The commit loop reads each page through `_get`. A 204 there therefore fails, because an empty body does not decode as JSON (`BodyNotJson`), whereas `_pages` stops quietly on a 204. `CommitLoopIsPages` states this difference exactly.

## Model

| member | source | states |
|---|---|---|
| Dates.DateRange | scripts/generate_metrics.py:58-60 | `days` dates (none when `days <= 0`), each one day after the previous, the last one `today`; a date is in the range iff `today - days < d <= today` |
| ApiClient.Get | scripts/generate_metrics.py:33-36 | `_get` succeeds exactly on a JSON response and then returns its body; a 204 or a failure status is an error |
| ApiClient.PagesFrom | scripts/generate_metrics.py:38-53 | the run of `_pages` from a page issues at least one request |
| ApiClient.FetchPages | scripts/generate_metrics.py:38-53 | the `while True` loop of `_pages` yields exactly the outcome and request count of `PagesFrom` from page 1 |
| ApiClient.PagesStopAtFirst | scripts/generate_metrics.py:39-53 | pages are requested in order from the first; the loop goes past a page iff that page is a full JSON page below the cap, and the last page requested is the first one that is not |
| ApiClient.PagesYielded | scripts/generate_metrics.py:44-52 | the run fails iff the last response is a failure status (with that status); the yielded pages are the non-empty bodies of the requested pages in order; a final 204 or empty page yields nothing; every yielded page but the last has at least 100 items |
| ApiClient.BodiesFromAt | scripts/generate_metrics.py:47-50 | the `i`-th yielded page is the decoded, non-empty body of page `page + i` |
| ApiClient.PagesBounded | scripts/generate_metrics.py:38-53 | at least one and at most `max_pages` requests (one when the cap is below 1) |
| ApiClient.CapReached | scripts/generate_metrics.py:51-53 | when every page up to the cap is full, exactly `max_pages` pages are requested and all of them are yielded |
| ApiClient.CommitPagesFrom | scripts/generate_metrics.py:124-133 | the commit loop from a page: it issues at least one request, and it aborts only on a failure status or a body that is not JSON |
| ApiClient.FetchCommits | scripts/generate_metrics.py:123-133 | the commit loop gathers exactly the outcome and request count of `CommitPagesFrom` from page 1 |
| ApiClient.CommitLoopIsPages | scripts/generate_metrics.py:124-133 | the commit loop requests the same pages as `_pages` with cap 10 and gathers the concatenation of the pages `_pages` yields, except that a final 204 aborts it with `BodyNotJson` |
| ApiClient.CommitLoopBounded | scripts/generate_metrics.py:124-133 | the commit loop issues between 1 and 10 requests, and every page before the last request was a full page of at least 100 commits |
| TrafficHistory.Record.With | scripts/generate_metrics.py:97-99 | setting one field of a day record gives that field the new value and leaves the other field as it was |
| TrafficHistory.BucketByDay | scripts/generate_metrics.py:80-83 | succeeds iff every timestamp parses, otherwise fails with `BadTimestamp` of an unparseable one; the result is keyed by exactly the observed days, each holding the sum of the counts of the points on that day, a point without `count` adding 0 |
| TrafficHistory.FetchTraffic | scripts/generate_metrics.py:75-90 | succeeds iff both endpoints answer with JSON and every timestamp parses; a missing `clones`/`views` list is empty; both results are per-day bucketings |
| TrafficHistory.Overwrite | scripts/generate_metrics.py:96-99 | one merge loop: the keys are the old keys plus the fetched days; each fetched day's field is overwritten with the fetched value (not added); its other field is kept; every other day is unchanged |
| TrafficHistory.Merged | scripts/generate_metrics.py:96-103 | the merge: keys are old keys ∪ fetched clone days ∪ fetched view days; fetched clones and views overwrite their fields; a day fetched for one field keeps the other; a day fetched for neither keeps its record |
| TrafficHistory.OverwriteField | scripts/generate_metrics.py:96-99 | the in-place loop over the fetched days: new key set, overwritten field of each fetched day with the other field kept, untouched records elsewhere |
| TrafficHistory.MergeWindow | scripts/generate_metrics.py:96-103 | the two merge loops, clones then views, produce exactly `Merged` |
| TrafficHistory.Prune | scripts/generate_metrics.py:70-71 | keeps exactly the entries dated on or after `today - 90`, with values unchanged |
| TrafficHistory.PruneCutoff | scripts/generate_metrics.py:70-71 | the entry dated exactly `today - 90` survives; the one a day older is dropped |
| TrafficHistory.PruneLater | scripts/generate_metrics.py:68-71 | pruning a pruned history at a later date is the same as pruning once at that later date |
| TrafficHistory.UpdateTrafficHistory | scripts/generate_metrics.py:92-105 | succeeds iff the traffic fetch succeeds; returns the merge of the loaded history with the bucketings of the fetched points, and saves that merge pruned at `today` |
| Events.EventDays | scripts/generate_metrics.py:110-112 | the dates of the events in order, skipping an event without a timestamp; at most one date per event; a failure is `BadTimestamp` of a present timestamp that does not parse |
| Events.EventDaysTally | scripts/generate_metrics.py:110-112 | the event dates are collected iff every timestamp present parses, and each day occurs among them as often as events are dated on it; events without a timestamp are ignored |
| Events.EventDaysErrSticks | scripts/generate_metrics.py:112 | once a timestamp fails to parse, later events cannot change the outcome: the run aborts with that timestamp |
| Events.StarDays | scripts/generate_metrics.py:108-112 | the nested loops over the star pages collect exactly `EventDays` of all stars of all pages, in order, or the first parse error |
| Events.CountInWindow | scripts/generate_metrics.py:114-118 | the star counts are keyed by exactly the window dates, each holding the number of star dates equal to it; dates outside the window are ignored |
| Events.CommitsByDay | scripts/generate_metrics.py:134-141 | succeeds iff every present commit date parses, with the same error otherwise; keys are exactly the commit days and each value is the number of commits on that day |
| Events.WindowCounts | scripts/generate_metrics.py:143-144 | keyed by exactly the window dates; a date's value is its count, or 0 when it has none |
| Events.WindowTallyUnique | scripts/generate_metrics.py:114-119 | two tallies of the same events over the same window are equal, so the star and commit counting, built differently, mean the same thing |
| Events.StarsPerDay | scripts/generate_metrics.py:107-119 | succeeds iff the paging succeeds and every present `starred_at` parses; the result has key set exactly the window and counts the stars dated on each window day |
| Events.CommitsPerDay | scripts/generate_metrics.py:121-144 | succeeds iff the commit loop succeeds and every present commit date parses; the result has key set exactly the window and counts the commits dated on each window day |
| Aggregator.SeriesFromCounts | scripts/generate_metrics.py:146-148 | one value per window date, in window order: the date's count, or 0 when absent |
| Aggregator.SeriesFromHistory | scripts/generate_metrics.py:149-150 | one value per window date, in window order: the record's field, or 0 when the date has no record or the record lacks the field |
| Aggregator.SeriesAfterMerge | scripts/generate_metrics.py:154-159 | in the series drawn from the merged history, a freshly fetched date shows the fetched value and any other date shows the stored one |
| Aggregator.SeriesUnaffectedByPrune | scripts/generate_metrics.py:68-71 | a series over a window of at most 91 days ending today is the same whether drawn from the history or its pruned copy |
| Aggregator.CommitSeriesCounts | scripts/generate_metrics.py:143-144 | the commit counts, read in window order, give at position `i` the number of commits on the `i`-th window date |
| Aggregator.MergeExample | scripts/generate_metrics.py:92-103 | an empty history merged with clones 5 and 3 on two consecutive days and no views plots clones `[5, 3]` and views `[0, 0]` |

## Left out

- Network access is not modelled. That covers `requests.get`, the request headers and parameters (including the commit `since` filter) and the 30-second timeouts. Each endpoint is an oracle from page number to response.
- The clock (`datetime.now`) is not modelled: `today` is a parameter.
- Environment configuration and `sys.exit` are not modelled.
- File I/O is not modelled. That covers `load_history`, directory creation, the JSON dump and its sorted key order. The loaded history is a parameter, and the saved history is a result.
- The matplotlib rendering in `plot_dashboard` and the `__main__` glue are not modelled. Only the series it plots are.
- `iso_date` is abstract: the model does not parse ISO-8601 text or convert time zones.
- `int(...)` conversions of counts are not modelled. Counts are taken to be integers already.
- A traffic point that lacks its `timestamp` key raises in the source. The model's points always carry a timestamp.
- Events.StarsPerDay: the source consumes `_pages` as a generator, so a bad `starred_at` on one page stops the paging before the next page is requested. The model pages first and then parses. Success, and the result on success, are the same. When both a failure status and a bad timestamp occur, the model may report a different error.
- Events.StarsPerDay: the star counts are built from a `set` of dates, so the order of their `.values()` when plotted is not determined. The model keeps the counts as a map keyed by date and says nothing about the plotted order of stars.
- Events.EventDaysTally: a commit whose `commit`, `author` or `date` is missing, or whose structure is otherwise malformed (any exception in the lookup), is modelled as an event without a timestamp.
