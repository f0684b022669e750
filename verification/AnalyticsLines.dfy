/** The aggregates over channel metrics, told by one pass over the rows. */
module AnalyticsLines {
  import opened Common
  import opened Tables
  import opened Sums
  import opened Analytics
  import opened AnalyticsLaws

  // ---- The rows an aggregate is over ------------------------------------------------------------

  /** The row is in the dates, both included, and of the channel and day asked for, if any. */
  predicate InQuestion(f: Filter, k: Key) {
    && f.start <= k.date <= f.end
    && (f.channel.Some? ==> k.channel == f.channel.value)
    && (f.date.Some? ==> k.date == f.date.value)
  }

  predicate OfWholeChannel(t: Metrics, f: Filter) {
    exists i :: 0 <= i < |t| && InQuestion(f, t[i].key) && t[i].key.post == None
  }

  /** With a post chosen, its rows; else the rows of whole channels or, when there is none of
      these in question, the rows of posts. */
  predicate Chosen(t: Metrics, f: Filter, i: int) {
    && 0 <= i < |t| && InQuestion(f, t[i].key)
    && if f.post.Some? then t[i].key.post == f.post else t[i].key.post == None || !OfWholeChannel(t, f)
  }

  lemma ScopeVerdict(t: Metrics, f: Filter, i: int)
    ensures InScope(t, f, i) <==> Chosen(t, f, i)
  {
    if f.post.None? {
      assert HasChannelLevel(t, f) <==> OfWholeChannel(t, f) by {
        if j :| 0 <= j < |t| && InQuestion(f, t[j].key) && t[j].key.post == None {
          assert Passes(f.(post := None), t[j].key);
        }
      }
    }
  }

  /** The chosen ones among the first `n` rows that are wanted, added up. */
  function Added(t: Metrics, f: Filter, n: nat, wanted: Key -> bool): int
    requires n <= |t|
  {
    if n == 0 then 0
    else Added(t, f, n - 1, wanted) + (if Chosen(t, f, n - 1) && wanted(t[n - 1].key) then t[n - 1].value else 0)
  }

  lemma {:induction false} AddedIsSum(t: Metrics, f: Filter, n: nat, wanted: Key -> bool, g: int -> int)
    requires n <= |t|
    requires forall i | 0 <= i < n :: g(i) == if Chosen(t, f, i) && wanted(t[i].key) then t[i].value else 0
    ensures Added(t, f, n, wanted) == Sum(n, g)
  {
    if n > 0 {
      AddedIsSum(t, f, n - 1, wanted, g);
    }
  }

  predicate OfType(k: Key, m: MetricType) {
    k.metricType == m
  }

  predicate OfDayAndType(k: Key, day: int, m: MetricType) {
    k.date == day && k.metricType == m
  }

  predicate SomeOfType(t: Metrics, f: Filter, m: MetricType) {
    exists i :: 0 <= i < |t| && Chosen(t, f, i) && OfType(t[i].key, m)
  }

  predicate SomeOfDayAndType(t: Metrics, f: Filter, day: int, m: MetricType) {
    exists i :: 0 <= i < |t| && Chosen(t, f, i) && OfDayAndType(t[i].key, day, m)
  }

  lemma IndexIsOwn(m: MetricType, k: MetricType)
    ensures Index(m) == Index(k) <==> m == k
  {
  }

  lemma AllScoped(t: Metrics, f: Filter)
    ensures forall i :: InScope(t, f, i) <==> Chosen(t, f, i)
  {
    forall i ensures InScope(t, f, i) <==> Chosen(t, f, i) {
      ScopeVerdict(t, f, i);
    }
  }

  // ---- Overview ---------------------------------------------------------------------------------

  /** The overview has exactly the types of the chosen rows, each with the sum of their values. */
  lemma OverviewVerdict(t: Metrics, f: Filter, m: MetricType)
    ensures m in Overview(t, f) <==> SomeOfType(t, f, m)
    ensures m in Overview(t, f) ==> Overview(t, f)[m] == Added(t, f, |t|, k => OfType(k, m))
  {
    AllScoped(t, f);
    var g := (i: int) => if TypeOf(t, i) == Index(m) then Term(t, f, i) else 0;
    PartIsSum(|t|, i => TypeOf(t, i), i => Term(t, f, i), Index(m), g);
    forall i | 0 <= i < |t| ensures TypeOf(t, i) == Index(m) <==> OfType(t[i].key, m) {
      IndexIsOwn(t[i].key.metricType, m);
    }
    AddedIsSum(t, f, |t|, k => OfType(k, m), g);
  }

  // ---- Breakdown ---------------------------------------------------------------------------------

  lemma CellMeans(t: Metrics, f: Filter, d: int, m: MetricType, i: int)
    requires 0 <= i < |t|
    ensures CellOf(t, f, i) == Cell(d, Index(m)) <==> OfDayAndType(t[i].key, f.start + d, m)
  {
    CellParts(d, Index(m));
    CellParts(t[i].key.date - f.start, Index(t[i].key.metricType));
    IndexIsOwn(t[i].key.metricType, m);
  }

  lemma CellVerdict(t: Metrics, f: Filter, d: int, m: MetricType)
    ensures CellHasData(t, f, Cell(d, Index(m))) <==> SomeOfDayAndType(t, f, f.start + d, m)
    ensures CellTotal(t, f, Cell(d, Index(m))) == Added(t, f, |t|, k => OfDayAndType(k, f.start + d, m))
  {
    AllScoped(t, f);
    forall i | 0 <= i < |t| ensures CellOf(t, f, i) == Cell(d, Index(m)) <==> OfDayAndType(t[i].key, f.start + d, m) {
      CellMeans(t, f, d, m, i);
    }
    var g := (i: int) => if CellOf(t, f, i) == Cell(d, Index(m)) then Term(t, f, i) else 0;
    PartIsSum(|t|, i => CellOf(t, f, i), i => Term(t, f, i), Cell(d, Index(m)), g);
    AddedIsSum(t, f, |t|, k => OfDayAndType(k, f.start + d, m), g);
  }

  /** A line of the breakdown: its day, counted from the start, and type, with the sum of the rows of both. */
  predicate IsLine(t: Metrics, f: Filter, row: CellRow) {
    && 0 <= row.day <= f.end - f.start
    && SomeOfDayAndType(t, f, f.start + row.day, row.metricType)
    && row.total == Added(t, f, |t|, k => OfDayAndType(k, f.start + row.day, row.metricType))
  }

  lemma CellLine(t: Metrics, f: Filter, c: nat)
    requires c < TYPES * Days(f) && CellHasData(t, f, c)
    ensures IsLine(t, f, CellRowAt(t, f, c))
  {
    var d, m := c / TYPES, TypeAt(c % TYPES);
    CellIs(c, d, m);
    CellVerdict(t, f, d, m);
    CellInDays(c, Days(f));
  }

  lemma CellInDays(c: nat, days: nat)
    requires c < TYPES * days
    ensures c / TYPES < days
  {
  }

  /** Two lines in order: by day, and never the same day and type. */
  predicate Before(a: CellRow, b: CellRow) {
    a.day < b.day || (a.day == b.day && a.metricType != b.metricType)
  }

  lemma CellsBefore(t: Metrics, f: Filter, c: nat, e: nat)
    requires c < e
    ensures Before(CellRowAt(t, f, c), CellRowAt(t, f, e))
  {
    CellIs(e, c / TYPES, TypeAt(c % TYPES));
    CellIs(c, c / TYPES, TypeAt(c % TYPES));
  }

  /** The breakdown has one line for each day and type with a chosen row, in order of days. */
  lemma BreakdownVerdict(t: Metrics, f: Filter)
    ensures var rows := Breakdown(t, f);
            && (forall k | 0 <= k < |rows| :: IsLine(t, f, rows[k]))
            && (forall k, l | 0 <= k < l < |rows| :: Before(rows[k], rows[l]))
  {
    var rows := Breakdown(t, f);
    var at := RowsAreListedAt(TYPES * Days(f), c => CellHasData(t, f, c), c => CellRowAt(t, f, c));
    forall k | 0 <= k < |rows| ensures IsLine(t, f, rows[k]) {
      CellLine(t, f, at[k]);
    }
    forall k, l | 0 <= k < l < |rows| ensures Before(rows[k], rows[l]) {
      CellsBefore(t, f, at[k], at[l]);
    }
  }

  lemma CellIsListed(t: Metrics, f: Filter, c: nat)
    requires c < TYPES * Days(f) && CellHasData(t, f, c)
    ensures CellRowAt(t, f, c) in Breakdown(t, f)
  {
    var at := RowsAreListedAt(TYPES * Days(f), x => CellHasData(t, f, x), x => CellRowAt(t, f, x));
    assert c in at;
    var k :| 0 <= k < |at| && at[k] == c;
    assert Breakdown(t, f)[k] == CellRowAt(t, f, c);
  }

  predicate IsFor(row: CellRow, d: int, m: MetricType) {
    row.day == d && row.metricType == m
  }

  lemma BreakdownIsComplete(t: Metrics, f: Filter, d: nat, m: MetricType)
    requires SomeOfDayAndType(t, f, f.start + d, m)
    ensures exists row :: row in Breakdown(t, f) && IsFor(row, d, m)
  {
    var c := Cell(d, Index(m));
    CellVerdict(t, f, d, m);
    CellIs(c, d, m);
    var i :| 0 <= i < |t| && InScope(t, f, i) && CellOf(t, f, i) == c;
    CellInRange(t, f, i);
    CellIsListed(t, f, c);
    assert IsFor(CellRowAt(t, f, c), d, m);
  }

  // ---- Daily totals -------------------------------------------------------------------------------

  /** `n` is `v` millionths without their fraction. */
  predicate IsWhole(v: int, n: int) {
    if v >= 0 then n * 1000000 <= v < (n + 1) * 1000000 else (n - 1) * 1000000 < v <= n * 1000000
  }

  lemma TruncatedIsWhole(v: int)
    ensures IsWhole(v, Truncated(v))
  {
  }

  predicate SomeOfDay(t: Metrics, f: Filter, day: int) {
    || SomeOfDayAndType(t, f, day, Impressions) || SomeOfDayAndType(t, f, day, Reach)
    || SomeOfDayAndType(t, f, day, Clicks) || SomeOfDayAndType(t, f, day, Engagement)
  }

  /** A line of the daily series: the whole part of each of the day's four sums. */
  predicate IsDayLine(t: Metrics, f: Filter, line: DayRow) {
    && IsWhole(Added(t, f, |t|, k => OfDayAndType(k, line.date, Impressions)), line.counts.impressions)
    && IsWhole(Added(t, f, |t|, k => OfDayAndType(k, line.date, Reach)), line.counts.reach)
    && IsWhole(Added(t, f, |t|, k => OfDayAndType(k, line.date, Clicks)), line.counts.clicks)
    && IsWhole(Added(t, f, |t|, k => OfDayAndType(k, line.date, Engagement)), line.counts.engagement)
  }

  lemma CountVerdict(t: Metrics, f: Filter, m: MetricType, d: nat)
    requires Daily(m) && d < Days(f)
    ensures IsWhole(Added(t, f, |t|, k => OfDayAndType(k, f.start + d, m)), In(LineOf(ByDate(DailyQuery(t, f)), d), m))
  {
    DayLineHolds(t, f, m, d);
    CellVerdict(t, f, d, m);
    TruncatedIsWhole(CellTotal(t, f, Cell(d, Index(m))));
  }

  lemma DayRowVerdict(t: Metrics, f: Filter, d: nat)
    requires d < Days(f)
    ensures IsDayLine(t, f, DayRowOf(f, ByDate(DailyQuery(t, f)), d))
  {
    var line := DayRowOf(f, ByDate(DailyQuery(t, f)), d);
    CountVerdict(t, f, Impressions, d);
    CountVerdict(t, f, Reach, d);
    CountVerdict(t, f, Clicks, d);
    CountVerdict(t, f, Engagement, d);
    assert In(line.counts, Impressions) == line.counts.impressions && In(line.counts, Reach) == line.counts.reach;
    assert In(line.counts, Clicks) == line.counts.clicks && In(line.counts, Engagement) == line.counts.engagement;
  }

  lemma ListedVerdict(t: Metrics, f: Filter, d: nat)
    requires d < Days(f)
    ensures DayListed(ByDate(DailyQuery(t, f)), d) <==> SomeOfDay(t, f, f.start + d)
  {
    AllScoped(t, f);
    DayListedExactlyWithData(t, f, d);
    if i :| 0 <= i < |t| && InScope(t, f, i) && Daily(t[i].key.metricType) && t[i].key.date == f.start + d {
      assert OfDayAndType(t[i].key, f.start + d, t[i].key.metricType);
    }
  }

  /** The daily series has one line for each day of the range with a chosen row of its four types,
      in order, with the whole parts of that day's sums. */
  lemma DailyVerdict(t: Metrics, f: Filter)
    ensures var byDate := ByDate(DailyQuery(t, f));
            Listing(DailyTotals(t, f), if f.end < f.start then 0 else f.end - f.start + 1,
                    d => SomeOfDay(t, f, f.start + d), d => DayRowOf(f, byDate, d))
    ensures forall line | line in DailyTotals(t, f) :: IsDayLine(t, f, line)
  {
    var byDate := ByDate(DailyQuery(t, f));
    forall d | 0 <= d < Days(f)
      ensures DayListed(byDate, d) <==> SomeOfDay(t, f, f.start + d)
      ensures IsDayLine(t, f, DayRowOf(f, byDate, d))
    {
      ListedVerdict(t, f, d);
      DayRowVerdict(t, f, d);
    }
    RowsAreListed(Days(f), d => DayListed(byDate, d), d => DayRowOf(f, byDate, d), d => SomeOfDay(t, f, f.start + d), d => DayRowOf(f, byDate, d));
  }
}
