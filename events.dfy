/** Counting star and commit events per day inside the look-back window
    (`fetch_stars_per_day` and `fetch_commits_per_day`). */
module Events {
  import opened Wrappers
  import opened Dates
  import opened ApiClient

  /** A stargazer or a commit as the counting sees it: its timestamp
      (`starred_at`, `commit.author.date`), None when the record lacks it. */
  datatype Event = Event(stamp: Option<Timestamp>)

  /** The dates of the events, in order, leaving out the events without a
      timestamp; the first timestamp that does not parse aborts the run. */
  function EventDays(events: seq<Event>, parse: DateParser): (r: Result<seq<Day>, Error>)
    ensures r.Ok? ==> |r.value| <= |events|
    ensures r.Err? ==> r.error.BadTimestamp? &&
                       exists i :: 0 <= i < |events| && events[i].stamp == Some(r.error.stamp) &&
                                   parse(events[i].stamp.value).None?
  {
    if events == [] then Ok([])
    else
      var init := EventDays(events[..|events| - 1], parse);
      var stamp := events[|events| - 1].stamp;
      if init.Err? || stamp.None? then init
      else match parse(stamp.value)
        case None => Err(BadTimestamp(stamp.value))
        case Some(d) => Ok(init.value + [d])
  }

  /** The number of events whose timestamp falls on day `d`. */
  ghost function Dated(events: seq<Event>, parse: DateParser, d: Day): nat {
    if events == [] then 0
    else
      var stamp := events[|events| - 1].stamp;
      Dated(events[..|events| - 1], parse, d) + (if stamp.Some? && parse(stamp.value) == Some(d) then 1 else 0)
  }

  /** Every timestamp present parses. */
  ghost predicate StampsParse(events: seq<Event>, parse: DateParser) {
    forall i :: 0 <= i < |events| && events[i].stamp.Some? ==> parse(events[i].stamp.value).Some?
  }

  /** The dates are collected exactly when every timestamp present parses,
      and each day occurs among them as often as events fall on it. */
  lemma {:induction false} EventDaysTally(events: seq<Event>, parse: DateParser)
    ensures EventDays(events, parse).Ok? <==> StampsParse(events, parse)
    ensures EventDays(events, parse).Ok? ==>
              forall d :: multiset(EventDays(events, parse).value)[d] == Dated(events, parse, d)
  {
    if events != [] {
      var init := events[..|events| - 1];
      EventDaysTally(init, parse);
      assert forall i :: 0 <= i < |init| ==> init[i] == events[i];
      if StampsParse(events, parse) {
        assert StampsParse(init, parse);
      }
    }
  }

  /** One more event: skipped without a timestamp, appended when its
      timestamp parses, fatal when it does not. */
  lemma EventDaysSnoc(events: seq<Event>, e: Event, parse: DateParser)
    ensures EventDays(events + [e], parse) ==
            if EventDays(events, parse).Err? || e.stamp.None? then EventDays(events, parse)
            else if parse(e.stamp.value).None? then Err(BadTimestamp(e.stamp.value))
            else Ok(EventDays(events, parse).value + [parse(e.stamp.value).value])
  {
  }

  /** Once a prefix fails to parse, the whole sequence fails with the same error. */
  lemma {:induction false} EventDaysErrSticks(events: seq<Event>, more: seq<Event>, parse: DateParser)
    requires EventDays(events, parse).Err?
    ensures EventDays(events + more, parse) == EventDays(events, parse)
    decreases |more|
  {
    if more == [] {
      assert events + more == events;
    } else {
      var init := more[..|more| - 1];
      EventDaysErrSticks(events, init, parse);
      assert (events + more)[..|events + more| - 1] == events + init;
    }
  }

  /** The collecting loops of fetch_stars_per_day: the date of every star
      that has `starred_at`, page by page. */
  method StarDays(pages: seq<seq<Event>>, parse: DateParser) returns (r: Result<seq<Day>, Error>)
    ensures r == EventDays(Flatten(pages), parse)
  {
    var starredAt: seq<Day> := [];
    for p := 0 to |pages|
      invariant EventDays(Flatten(pages[..p]), parse) == Ok(starredAt)
    {
      var page := pages[p];
      ghost var before := Flatten(pages[..p]);
      assert before + page[..0] == before;
      for j := 0 to |page|
        invariant EventDays(before + page[..j], parse) == Ok(starredAt)
      {
        var star := page[j];
        assert before + page[..j + 1] == (before + page[..j]) + [star];
        EventDaysSnoc(before + page[..j], star, parse);
        if star.stamp.Some? {
          var d := parse(star.stamp.value);
          if d.None? {
            FlattenSplit(pages, p, j + 1);
            EventDaysErrSticks(before + page[..j + 1], page[j + 1..] + Flatten(pages[p + 1..]), parse);
            return Err(BadTimestamp(star.stamp.value));
          }
          starredAt := starredAt + [d.value];
        }
      }
      assert page[..|page|] == page;
      FlattenSnoc(pages, p);
    }
    assert pages[..|pages|] == pages;
    return Ok(starredAt);
  }

  /** The counting part of fetch_stars_per_day: a zero for each date of
      the window, then one more for each star date inside the window. */
  method CountInWindow(dates: seq<Day>, window: set<Day>) returns (counts: map<Day, int>)
    ensures forall d :: d in counts <==> d in window
    ensures forall d :: d in counts ==> counts[d] == multiset(dates)[d]
  {
    counts := map d | d in window :: 0;
    for i := 0 to |dates|
      invariant forall d :: d in counts <==> d in window
      invariant forall d :: d in counts ==> counts[d] == multiset(dates[..i])[d]
    {
      var d := dates[i];
      assert dates[..i + 1] == dates[..i] + [d];
      if d in window {
        counts := counts[d := counts[d] + 1];
      }
    }
    assert dates[..|dates|] == dates;
  }

  /** The by_day loop of fetch_commits_per_day: skip a commit without
      `commit.author.date`, otherwise count one for its date. */
  method CommitsByDay(commits: seq<Event>, parse: DateParser) returns (r: Result<map<Day, int>, Error>)
    ensures r.Ok? <==> EventDays(commits, parse).Ok?
    ensures r.Err? ==> r.error == EventDays(commits, parse).error
    ensures r.Ok? ==> forall d :: d in r.value <==> d in EventDays(commits, parse).value
    ensures r.Ok? ==> forall d :: d in r.value ==> r.value[d] == multiset(EventDays(commits, parse).value)[d]
  {
    var byDay: map<Day, int> := map[];
    ghost var days: seq<Day> := [];
    for i := 0 to |commits|
      invariant EventDays(commits[..i], parse) == Ok(days)
      invariant forall d :: d in byDay <==> d in days
      invariant forall d :: d in byDay ==> byDay[d] == multiset(days)[d]
    {
      var c := commits[i];
      assert commits[..i + 1][..i] == commits[..i];
      assert commits[..i + 1][i] == c;
      if c.stamp.None? {
        continue;
      }
      var parsed := parse(c.stamp.value);
      if parsed.None? {
        EventDaysErrSticks(commits[..i + 1], commits[i + 1..], parse);
        assert commits[..i + 1] + commits[i + 1..] == commits;
        return Err(BadTimestamp(c.stamp.value));
      }
      var d := parsed.value;
      byDay := byDay[d := (if d in byDay then byDay[d] else 0) + 1];
      days := days + [d];
    }
    assert commits[..|commits|] == commits;
    return Ok(byDay);
  }

  /** The final comprehension of fetch_commits_per_day: every window date,
      with its count or 0. */
  function WindowCounts(window: seq<Day>, byDay: map<Day, int>): (r: map<Day, int>)
    ensures forall d :: d in r <==> d in window
    ensures forall d :: d in r ==> r[d] == if d in byDay then byDay[d] else 0
  {
    map d | d in window :: if d in byDay then byDay[d] else 0
  }

  /** `counts` holds, for exactly the `days` dates ending `today`, the
      number of events on each. */
  ghost predicate IsWindowTally(counts: map<Day, int>, events: seq<Event>, parse: DateParser, today: Day, days: int) {
    && (forall d :: d in counts <==> today - days < d <= today)
    && (forall d :: d in counts ==> counts[d] == Dated(events, parse, d))
  }

  /** A window tally is determined by the events: the star count and the
      commit count, built differently, agree on the same events. */
  lemma WindowTallyUnique(a: map<Day, int>, b: map<Day, int>, events: seq<Event>, parse: DateParser, today: Day, days: int)
    requires IsWindowTally(a, events, parse, today, days)
    requires IsWindowTally(b, events, parse, today, days)
    ensures a == b
  {
    assert forall d :: d in a <==> d in b;
    assert a.Keys == b.Keys;
    forall d | d in a ensures a[d] == b[d] {}
  }

  /** fetch_stars_per_day(days): read every page of stargazers, collect the
      star dates, and count them per day of the window ending `today`. */
  method StarsPerDay(fetch: Endpoint<Event>, parse: DateParser, today: Day, days: int)
    returns (r: Result<map<Day, int>, Error>)
    ensures var f := PagesFrom(fetch, DefaultMaxPages, 1);
            r.Ok? <==> f.outcome.Ok? && StampsParse(Flatten(f.outcome.value), parse)
    ensures var f := PagesFrom(fetch, DefaultMaxPages, 1);
            r.Ok? ==> IsWindowTally(r.value, Flatten(f.outcome.value), parse, today, days)
  {
    var pages, _ := FetchPages(fetch, DefaultMaxPages);
    if pages.Err? {
      return Err(pages.error);
    }
    var dates := StarDays(pages.value, parse);
    EventDaysTally(Flatten(pages.value), parse);
    if dates.Err? {
      return Err(dates.error);
    }
    var window := DateRange(today, days);
    var counts := CountInWindow(dates.value, set d | d in window);
    return Ok(counts);
  }

  /** fetch_commits_per_day(days): run the commit loop, count the commits
      per day, and keep the days of the window ending `today`. */
  method CommitsPerDay(fetch: Endpoint<Event>, parse: DateParser, today: Day, days: int)
    returns (r: Result<map<Day, int>, Error>)
    ensures var c := CommitPagesFrom(fetch, 1);
            r.Ok? <==> c.outcome.Ok? && StampsParse(c.outcome.value, parse)
    ensures var c := CommitPagesFrom(fetch, 1);
            r.Ok? ==> IsWindowTally(r.value, c.outcome.value, parse, today, days)
  {
    var commits, _ := FetchCommits(fetch);
    if commits.Err? {
      return Err(commits.error);
    }
    var byDay := CommitsByDay(commits.value, parse);
    EventDaysTally(commits.value, parse);
    if byDay.Err? {
      return Err(byDay.error);
    }
    var counts := WindowCounts(DateRange(today, days), byDay.value);
    forall d | d in counts ensures counts[d] == Dated(commits.value, parse, d) {
      if d !in byDay.value {
        assert d !in EventDays(commits.value, parse).value;
      }
    }
    return Ok(counts);
  }
}
