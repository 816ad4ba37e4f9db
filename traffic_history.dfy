/** The day-keyed traffic history: bucketing the fetched clone and view
    points per day (`fetch_traffic`), merging them into the stored history
    (`update_traffic_history`) and the 90-day retention prune applied when
    the history is saved (`save_history`). */
module TrafficHistory {
  import opened Wrappers
  import opened Dates
  import opened ApiClient

  /** One traffic point: a timestamp and, when present, a count. */
  datatype Point = Point(timestamp: Timestamp, count: Option<int>)

  /** The two fields of a stored day record. */
  datatype Field = Clones | Views

  /** A stored day record `{"clones": n, "views": n}`; either field may be absent. */
  datatype Record = Record(clones: Option<int>, views: Option<int>) {

    function Get(f: Field): Option<int> {
      match f
      case Clones => clones
      case Views => views
    }

    /** The record with field `f` set to `v`. */
    function With(f: Field, v: int): (r: Record)
      ensures r.Get(f) == Some(v)
      ensures forall g :: g != f ==> r.Get(g) == Get(g)
    {
      match f
      case Clones => this.(clones := Some(v))
      case Views => this.(views := Some(v))
    }
  }

  /** The history: a map from date to day record. */
  type History = map<Day, Record>

  /** The number of days of history kept on save. */
  const RetentionDays: int := 90

  // ---------------------------------------------------------------------
  // Bucketing (fetch_traffic)

  /** Every point's timestamp parses. */
  ghost predicate AllParse(points: seq<Point>, parse: DateParser) {
    forall i :: 0 <= i < |points| ==> parse(points[i].timestamp).Some?
  }

  /** Some point falls on day `d`. */
  ghost predicate Observed(points: seq<Point>, parse: DateParser, d: Day) {
    exists i :: 0 <= i < |points| && parse(points[i].timestamp) == Some(d)
  }

  /** The sum of the counts of the points on day `d`; a point without a count adds 0. */
  ghost function DaySum(points: seq<Point>, parse: DateParser, d: Day): int {
    if points == [] then 0
    else
      var p := points[|points| - 1];
      DaySum(points[..|points| - 1], parse, d) + (if parse(p.timestamp) == Some(d) then p.count.GetOr(0) else 0)
  }

  /** A day no point falls on sums to 0. */
  lemma {:induction false} DaySumUnobserved(points: seq<Point>, parse: DateParser, d: Day)
    requires !Observed(points, parse, d)
    ensures DaySum(points, parse, d) == 0
  {
    if points != [] {
      var init := points[..|points| - 1];
      assert forall j :: 0 <= j < |init| ==> init[j] == points[j];
      DaySumUnobserved(init, parse, d);
    }
  }

  /** `byDay` is the per-day bucketing of `points`: keyed by exactly the
      observed days, each holding the sum of the counts on that day. */
  ghost predicate IsBucketing(points: seq<Point>, parse: DateParser, byDay: map<Day, int>) {
    && (forall d :: d in byDay <==> Observed(points, parse, d))
    && (forall d :: d in byDay ==> byDay[d] == DaySum(points, parse, d))
  }

  /** One bucketing loop of fetch_traffic: `by_day[d] = by_day.get(d, 0) + count`
      for each point. A timestamp that does not parse aborts the run. */
  method BucketByDay(points: seq<Point>, parse: DateParser) returns (r: Result<map<Day, int>, Error>)
    ensures r.Ok? <==> AllParse(points, parse)
    ensures r.Ok? ==> IsBucketing(points, parse, r.value)
    ensures r.Err? ==> exists i :: 0 <= i < |points| && parse(points[i].timestamp).None? &&
                                   r.error == BadTimestamp(points[i].timestamp)
  {
    var byDay: map<Day, int> := map[];
    for i := 0 to |points|
      invariant AllParse(points[..i], parse)
      invariant IsBucketing(points[..i], parse, byDay)
    {
      var p := points[i];
      var parsed := parse(p.timestamp);
      if parsed.None? {
        return Err(BadTimestamp(p.timestamp));
      }
      var d := parsed.value;
      assert points[..i + 1][..i] == points[..i];
      assert points[..i + 1][i] == p;
      if d !in byDay {
        DaySumUnobserved(points[..i], parse, d);
      }
      byDay := byDay[d := (if d in byDay then byDay[d] else 0) + p.count.GetOr(0)];
      forall e | Observed(points[..i + 1], parse, e) ensures e in byDay {
        var j :| 0 <= j <= i && parse(points[..i + 1][j].timestamp) == Some(e);
        if j < i {
          assert points[..i][j] == points[..i + 1][j];
        }
      }
      forall e | e in byDay ensures byDay[e] == DaySum(points[..i + 1], parse, e) {
        assert DaySum(points[..i + 1], parse, e) ==
               DaySum(points[..i], parse, e) + (if parse(p.timestamp) == Some(e) then p.count.GetOr(0) else 0);
      }
      forall e | e in byDay ensures Observed(points[..i + 1], parse, e) {
        if e != d {
          var j :| 0 <= j < i && parse(points[..i][j].timestamp) == Some(e);
          assert points[..i + 1][j] == points[..i][j];
        }
      }
    }
    assert points[..|points|] == points;
    return Ok(byDay);
  }

  /** fetch_traffic: read the clones and the views endpoints (a missing
      `clones` or `views` list counts as empty) and bucket each per day. */
  method FetchTraffic(clonesResp: Response<Option<seq<Point>>>, viewsResp: Response<Option<seq<Point>>>,
                      parse: DateParser)
    returns (r: Result<(map<Day, int>, map<Day, int>), Error>)
    ensures r.Ok? <==> clonesResp.Json? && viewsResp.Json? &&
                       AllParse(clonesResp.body.GetOr([]), parse) && AllParse(viewsResp.body.GetOr([]), parse)
    ensures r.Ok? ==> IsBucketing(clonesResp.body.GetOr([]), parse, r.value.0) &&
                      IsBucketing(viewsResp.body.GetOr([]), parse, r.value.1)
  {
    var clones := Get(clonesResp);
    if clones.Err? {
      return Err(clones.error);
    }
    var views := Get(viewsResp);
    if views.Err? {
      return Err(views.error);
    }
    var clonesByDay := BucketByDay(clones.value.GetOr([]), parse);
    if clonesByDay.Err? {
      return Err(clonesByDay.error);
    }
    var viewsByDay := BucketByDay(views.value.GetOr([]), parse);
    if viewsByDay.Err? {
      return Err(viewsByDay.error);
    }
    return Ok((clonesByDay.value, viewsByDay.value));
  }

  // ---------------------------------------------------------------------
  // Merge (update_traffic_history)

  /** The stored record for `d`, or an empty one (`hist.get(d, {})`). */
  function RecordAt(hist: History, d: Day): Record {
    if d in hist then hist[d] else Record(None, None)
  }

  /** One merge loop: for each fetched day, set field `f` of its record. */
  function Overwrite(hist: History, fetched: map<Day, int>, f: Field): (r: History)
    ensures r.Keys == hist.Keys + fetched.Keys
    ensures forall d :: d in fetched ==> r[d].Get(f) == Some(fetched[d])
    ensures forall d, g :: d in fetched && g != f ==> r[d].Get(g) == RecordAt(hist, d).Get(g)
    ensures forall d :: d in hist && d !in fetched ==> r[d] == hist[d]
  {
    hist + map d | d in fetched :: RecordAt(hist, d).With(f, fetched[d])
  }

  /** update_traffic_history's merge: the freshly fetched clones, then the
      freshly fetched views, overwrite the fields of their days' records. */
  function Merged(hist: History, clones14: map<Day, int>, views14: map<Day, int>): (r: History)
    ensures r.Keys == hist.Keys + clones14.Keys + views14.Keys
    ensures forall d :: d in clones14 ==> r[d].clones == Some(clones14[d])
    ensures forall d :: d in views14 ==> r[d].views == Some(views14[d])
    ensures forall d :: d in clones14 && d !in views14 ==> r[d].views == RecordAt(hist, d).views
    ensures forall d :: d in views14 && d !in clones14 ==> r[d].clones == RecordAt(hist, d).clones
    ensures forall d :: d in hist && d !in clones14 && d !in views14 ==> r[d] == hist[d]
  {
    Overwrite(Overwrite(hist, clones14, Clones), views14, Views)
  }

  /** A history that agrees with `Overwrite(hist, fetched, f)` day by day is that history. */
  lemma OverwriteByDay(hist: History, fetched: map<Day, int>, f: Field, r: History)
    requires forall d :: d in r <==> d in hist || d in fetched
    requires forall d :: d in fetched ==> r[d] == RecordAt(hist, d).With(f, fetched[d])
    requires forall d :: d in hist && d !in fetched ==> r[d] == hist[d]
    ensures r == Overwrite(hist, fetched, f)
  {
    var spec := Overwrite(hist, fetched, f);
    assert forall d :: d in r <==> d in spec;
    assert r.Keys == spec.Keys;
    forall d | d in r ensures r[d] == spec[d] {
    }
  }

  /** The first loop of update_traffic_history run over the days of `fetched`. */
  method OverwriteField(hist: History, fetched: map<Day, int>, f: Field) returns (r: History)
    ensures forall d :: d in r <==> d in hist || d in fetched
    ensures forall d :: d in fetched ==> r[d] == RecordAt(hist, d).With(f, fetched[d])
    ensures forall d :: d in hist && d !in fetched ==> r[d] == hist[d]
  {
    r := hist;
    var todo := fetched.Keys;
    while exists d :: d in todo
      invariant todo <= fetched.Keys
      invariant forall d :: d in r <==> d in hist || (d in fetched && d !in todo)
      invariant forall d :: d in fetched && d !in todo ==> r[d] == RecordAt(hist, d).With(f, fetched[d])
      invariant forall d :: d in hist && (d !in fetched || d in todo) ==> r[d] == hist[d]
      decreases |todo|
    {
      var d :| d in todo;
      r := r[d := RecordAt(hist, d).With(f, fetched[d])];
      todo := todo - {d};
    }
  }

  /** The two merge loops of update_traffic_history: clones first, then views. */
  method MergeWindow(hist: History, clones14: map<Day, int>, views14: map<Day, int>) returns (r: History)
    ensures r == Merged(hist, clones14, views14)
  {
    var withClones := OverwriteField(hist, clones14, Clones);
    OverwriteByDay(hist, clones14, Clones, withClones);
    r := OverwriteField(withClones, views14, Views);
    OverwriteByDay(withClones, views14, Views, r);
  }

  // ---------------------------------------------------------------------
  // Prune (save_history)

  /** The prune of save_history: the entries dated on or after `today - 90`. */
  function Prune(hist: History, today: Day): (r: History)
    ensures forall d :: d in r <==> d in hist && d >= today - RetentionDays
    ensures forall d :: d in r ==> r[d] == hist[d]
  {
    map d | d in hist && d >= today - RetentionDays :: hist[d]
  }

  /** The entry dated exactly at the cutoff survives; the one before it is dropped. */
  lemma PruneCutoff(hist: History, today: Day)
    ensures (today - RetentionDays in hist) ==> today - RetentionDays in Prune(hist, today)
    ensures today - RetentionDays - 1 !in Prune(hist, today)
  {
  }

  /** Pruning again later keeps what a prune at the later date alone keeps:
      saving every run is the same as pruning once at the last save. */
  lemma PruneLater(hist: History, earlier: Day, later: Day)
    requires earlier <= later
    ensures Prune(Prune(hist, earlier), later) == Prune(hist, later)
  {
  }

  // ---------------------------------------------------------------------
  // update_traffic_history

  /** The history update_traffic_history returns (merged, not yet pruned)
      and the one save_history writes (merged and pruned). */
  datatype Updated = Updated(merged: History, saved: History)

  /** update_traffic_history given the loaded history `hist`, the two traffic
      responses and today's date. */
  method UpdateTrafficHistory(hist: History, clonesResp: Response<Option<seq<Point>>>,
                              viewsResp: Response<Option<seq<Point>>>, parse: DateParser, today: Day)
    returns (r: Result<Updated, Error>)
    ensures r.Ok? <==> clonesResp.Json? && viewsResp.Json? &&
                       AllParse(clonesResp.body.GetOr([]), parse) && AllParse(viewsResp.body.GetOr([]), parse)
    ensures r.Ok? ==> exists clones14, views14 ::
                        && IsBucketing(clonesResp.body.GetOr([]), parse, clones14)
                        && IsBucketing(viewsResp.body.GetOr([]), parse, views14)
                        && r.value.merged == Merged(hist, clones14, views14)
    ensures r.Ok? ==> r.value.saved == Prune(r.value.merged, today)
  {
    var fetched := FetchTraffic(clonesResp, viewsResp, parse);
    if fetched.Err? {
      return Err(fetched.error);
    }
    var (clones14, views14) := fetched.value;
    var merged := MergeWindow(hist, clones14, views14);
    return Ok(Updated(merged, Prune(merged, today)));
  }
}
