/** Channel metrics: one row per natural key, and the aggregates over them
    (app/services/analytics_service.py, app/models/channel_metric.py). */
module Analytics {
  import opened Common
  import opened Tables
  import opened Sums

  datatype MetricType =
    | Impressions | Reach | Clicks | Engagement | Spend | Conversions | Likes | Shares | Retweets
    | Sessions | PageViews | Users | BounceRate

  /** `post` is None for a metric of the channel as a whole. */
  datatype Key = Key(channel: nat, post: Option<nat>, date: int, metricType: MetricType)

  /** Values are integers in millionths. */
  type Metrics = Table<Key, (), int>

  const UNIT := 1000000

  /** The arguments of a query; the dates are both included. */
  datatype Filter = Filter(start: int, end: int, channel: Option<nat>, post: Option<nat>, date: Option<int>)

  // ---- Scope ---------------------------------------------------------------------------------

  predicate Agrees<T(==)>(wanted: Option<T>, actual: T) {
    wanted.None? || wanted.value == actual
  }

  predicate Passes(f: Filter, k: Key) {
    && f.start <= k.date <= f.end
    && Agrees(f.channel, k.channel)
    && (f.post.None? || k.post == f.post)
    && Agrees(f.date, k.date)
  }

  predicate HasChannelLevel(t: Metrics, f: Filter) {
    exists i :: 0 <= i < |t| && t[i].key.post.None? && Passes(f.(post := None), t[i].key)
  }

  /** The rows an aggregate is taken over. */
  predicate InScope(t: Metrics, f: Filter, i: int) {
    && 0 <= i < |t|
    && Passes(f, t[i].key)
    && (f.post.None? && HasChannelLevel(t, f) ==> t[i].key.post.None?)
  }

  /** With no post chosen, an aggregate is over the channel-level rows that pass, or, when there is
      none, over the post-level rows that pass: never over both, which would count twice. */
  lemma ScopeIsOneLevel(t: Metrics, f: Filter, i: nat)
    requires f.post.None? && i < |t|
    ensures InScope(t, f, i) <==> Passes(f, t[i].key) && (HasChannelLevel(t, f) <==> t[i].key.post.None?)
  {
    if Passes(f, t[i].key) && t[i].key.post.None? {
      assert Passes(f.(post := None), t[i].key);
    }
  }

  // ---- Grouped totals --------------------------------------------------------------------------

  const TYPES := 13

  function Index(m: MetricType): (n: nat)
    ensures n < TYPES && TypeAt(n) == m
  {
    match m
    case Impressions => 0 case Reach => 1 case Clicks => 2 case Engagement => 3 case Spend => 4
    case Conversions => 5 case Likes => 6 case Shares => 7 case Retweets => 8 case Sessions => 9
    case PageViews => 10 case Users => 11 case BounceRate => 12
  }

  function TypeAt(n: int): MetricType {
    if n == 0 then Impressions else if n == 1 then Reach else if n == 2 then Clicks
    else if n == 3 then Engagement else if n == 4 then Spend else if n == 5 then Conversions
    else if n == 6 then Likes else if n == 7 then Shares else if n == 8 then Retweets
    else if n == 9 then Sessions else if n == 10 then PageViews else if n == 11 then Users else BounceRate
  }

  function Days(f: Filter): nat {
    if f.end < f.start then 0 else f.end - f.start + 1
  }

  /** Position of a row's (date, type) group in the order of the query. */
  function CellOf(t: Metrics, f: Filter, i: int): int {
    if 0 <= i < |t| then Cell(t[i].key.date - f.start, Index(t[i].key.metricType)) else -1
  }

  function Cell(day: int, n: int): int {
    TYPES * day + n
  }

  function TypeOf(t: Metrics, i: int): int {
    if 0 <= i < |t| then Index(t[i].key.metricType) else -1
  }

  function Term(t: Metrics, f: Filter, i: int): int {
    if InScope(t, f, i) then t[i].value else 0
  }

  function TypeTotal(t: Metrics, f: Filter, m: MetricType): int {
    Part(|t|, i => TypeOf(t, i), i => Term(t, f, i), Index(m))
  }

  function CellTotal(t: Metrics, f: Filter, c: int): int {
    Part(|t|, i => CellOf(t, f, i), i => Term(t, f, i), c)
  }

  predicate TypeHasData(t: Metrics, f: Filter, m: MetricType) {
    exists i :: 0 <= i < |t| && InScope(t, f, i) && t[i].key.metricType == m
  }

  predicate CellHasData(t: Metrics, f: Filter, c: int) {
    exists i :: 0 <= i < |t| && InScope(t, f, i) && CellOf(t, f, i) == c
  }

  datatype CellRow = CellRow(day: int, metricType: MetricType, total: int)

  function CellRowAt(t: Metrics, f: Filter, c: int): CellRow {
    CellRow(c / TYPES, TypeAt(c % TYPES), CellTotal(t, f, c))
  }

  /** The totals by type. */
  function Overview(t: Metrics, f: Filter): map<MetricType, int> {
    map m: MetricType | TypeHasData(t, f, m) :: TypeTotal(t, f, m)
  }

  /** The totals by day and type, in that order; days count from the start of the range. */
  function Breakdown(t: Metrics, f: Filter): seq<CellRow> {
    Rows(TYPES * Days(f), c => CellHasData(t, f, c), c => CellRowAt(t, f, c))
  }

  // ---- Daily totals ----------------------------------------------------------------------------

  datatype DayLine = DayLine(impressions: int, reach: int, clicks: int, engagement: int)

  predicate Daily(m: MetricType) {
    m.Impressions? || m.Reach? || m.Clicks? || m.Engagement?
  }

  function In(line: DayLine, m: MetricType): int {
    match m
    case Impressions => line.impressions
    case Reach => line.reach
    case Clicks => line.clicks
    case Engagement => line.engagement
    case _ => 0
  }

  function With(line: DayLine, m: MetricType, n: int): DayLine {
    match m
    case Impressions => line.(impressions := n)
    case Reach => line.(reach := n)
    case Clicks => line.(clicks := n)
    case Engagement => line.(engagement := n)
    case _ => line
  }

  const NO_COUNTS := DayLine(0, 0, 0, 0)

  /** Python's `int`: towards zero. */
  function Truncated(v: int): int {
    if v >= 0 then v / UNIT else -((-v) / UNIT)
  }

  predicate DailyCellHasData(t: Metrics, f: Filter, c: int) {
    Daily(TypeAt(c % TYPES)) && CellHasData(t, f, c)
  }

  function DailyQuery(t: Metrics, f: Filter): seq<CellRow> {
    Rows(TYPES * Days(f), c => DailyCellHasData(t, f, c), c => CellRowAt(t, f, c))
  }

  function Entered(byDate: map<int, DayLine>, row: CellRow): map<int, DayLine> {
    var line := if row.day in byDate then byDate[row.day] else NO_COUNTS;
    byDate[row.day := With(line, row.metricType, Truncated(row.total))]
  }

  function ByDate(rows: seq<CellRow>): map<int, DayLine> {
    if rows == [] then map[]
    else Entered(ByDate(rows[..|rows| - 1]), rows[|rows| - 1])
  }

  predicate DayListed(byDate: map<int, DayLine>, d: int) {
    d in byDate
  }

  function LineOf(byDate: map<int, DayLine>, d: int): DayLine {
    if d in byDate then byDate[d] else NO_COUNTS
  }

  datatype DayRow = DayRow(date: int, counts: DayLine)

  function DayRowOf(f: Filter, byDate: map<int, DayLine>, d: int): DayRow {
    DayRow(f.start + d, LineOf(byDate, d))
  }

  function DailyTotals(t: Metrics, f: Filter): seq<DayRow> {
    var byDate := ByDate(DailyQuery(t, f));
    Rows(Days(f), d => DayListed(byDate, d), d => DayRowOf(f, byDate, d))
  }

  class AnalyticsService {
    var metrics: Metrics

    constructor ()
      ensures metrics == []
    {
      metrics := [];
    }

    method UpsertMetric(channel: nat, date: int, metricType: MetricType, value: int, post: Option<nat>) returns (id: nat)
      modifies this
      ensures metrics == Put(old(metrics), Key(channel, post, date, metricType), (), value)
      ensures id < |metrics| && metrics[id].key == Key(channel, post, date, metricType) && metrics[id].value == value
      ensures Unique(old(metrics)) ==> Unique(metrics)
    {
      var key := Key(channel, post, date, metricType);
      PutFacts(metrics, key, (), value);
      var existing := Find(metrics, key);
      if existing.Some? {
        metrics := metrics[existing.value := metrics[existing.value].(value := value)];
        return existing.value;
      }
      id := |metrics|;
      metrics := metrics + [Row(key, (), value)];
    }

    method GetDailyTotals(f: Filter) returns (lines: seq<DayRow>)
      ensures lines == DailyTotals(metrics, f)
    {
      var rows := DailyQuery(metrics, f);
      var byDate: map<int, DayLine> := map[];
      for i := 0 to |rows|
        invariant byDate == ByDate(rows[..i])
      {
        assert rows[..i + 1][..i] == rows[..i];
        var row := rows[i];
        if row.day !in byDate {
          byDate := byDate[row.day := NO_COUNTS];
        }
        byDate := byDate[row.day := With(byDate[row.day], row.metricType, Truncated(row.total))];
      }
      assert rows[..|rows|] == rows;
      lines := [];
      for d := 0 to Days(f)
        invariant lines == Rows(d, x => DayListed(byDate, x), x => DayRowOf(f, byDate, x))
      {
        if d in byDate {
          lines := lines + [DayRow(f.start + d, byDate[d])];
        }
      }
    }
  }
}
