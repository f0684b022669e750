/** Upserts keep the last value of each key, and the aggregates agree with each other. */
module AnalyticsLaws {
  import opened Common
  import opened Tables
  import opened Sums
  import opened Analytics

  /** After any sequence of upserts there is one row per key, holding the last value written. */
  lemma UpsertsKeepLastValue(t: Metrics, ws: seq<Write<Key, int>>, k: Key)
    requires Unique(t)
    ensures Unique(Puts(t, (), ws))
    ensures ValueOf(Puts(t, (), ws), k) == LastValue(ws, k, ValueOf(t, k))
    ensures Puts(Puts(t, (), ws), (), ws) == Puts(t, (), ws)
  {
    PutsGrow(t, (), ws);
    PutsAreLastWrites(t, (), ws, k);
    PutsTwice(t, (), ws);
  }

  // ---- Overview and breakdown -------------------------------------------------------------------

  lemma CellParts(day: int, n: int)
    requires 0 <= n < TYPES
    ensures Cell(day, n) / TYPES == day && Cell(day, n) % TYPES == n
  {
  }

  lemma CellInRange(t: Metrics, f: Filter, i: int)
    requires InScope(t, f, i)
    ensures 0 <= CellOf(t, f, i) < TYPES * Days(f)
    ensures CellOf(t, f, i) % TYPES == TypeOf(t, i)
  {
    CellParts(t[i].key.date - f.start, Index(t[i].key.metricType));
  }

  function TypeTerm(t: Metrics, f: Filter, m: MetricType, i: int): int {
    if TypeOf(t, i) == Index(m) then Term(t, f, i) else 0
  }

  /** A cell's share of the total of type `m`. */
  function Share(t: Metrics, f: Filter, m: MetricType, c: int): int {
    if c % TYPES == Index(m) then CellTotal(t, f, c) else 0
  }

  lemma ShareIsPart(t: Metrics, f: Filter, m: MetricType, c: int)
    ensures Share(t, f, m, c) == Part(|t|, i => CellOf(t, f, i), i => TypeTerm(t, f, m, i), c)
  {
    forall i | 0 <= i < |t| ensures CellOf(t, f, i) % TYPES == TypeOf(t, i) {
      CellParts(t[i].key.date - f.start, Index(t[i].key.metricType));
    }
    if c % TYPES == Index(m) {
      PartIsSum(|t|, i => CellOf(t, f, i), i => Term(t, f, i), c,
                (i: int) => if CellOf(t, f, i) == c then TypeTerm(t, f, m, i) else 0);
      PartIsSum(|t|, i => CellOf(t, f, i), i => TypeTerm(t, f, m, i), c,
                (i: int) => if CellOf(t, f, i) == c then TypeTerm(t, f, m, i) else 0);
    } else {
      PartZero(|t|, i => CellOf(t, f, i), i => TypeTerm(t, f, m, i), c);
    }
  }

  lemma SharesAddUp(t: Metrics, f: Filter, m: MetricType)
    ensures Sum(TYPES * Days(f), c => Share(t, f, m, c)) == TypeTotal(t, f, m)
  {
    forall c | 0 <= c < TYPES * Days(f)
      ensures Share(t, f, m, c) == Part(|t|, i => CellOf(t, f, i), i => TypeTerm(t, f, m, i), c)
    {
      ShareIsPart(t, f, m, c);
    }
    forall i | 0 <= i < |t| ensures 0 <= CellOf(t, f, i) < TYPES * Days(f) || TypeTerm(t, f, m, i) == 0 {
      if InScope(t, f, i) {
        CellInRange(t, f, i);
      }
    }
    GroupsAdd(TYPES * Days(f), |t|, i => CellOf(t, f, i), i => TypeTerm(t, f, m, i), c => Share(t, f, m, c));
    PartIsSum(|t|, i => TypeOf(t, i), i => Term(t, f, i), Index(m), i => TypeTerm(t, f, m, i));
  }

  lemma NoDataNoTotal(t: Metrics, f: Filter, c: int)
    ensures !CellHasData(t, f, c) ==> CellTotal(t, f, c) == 0
  {
    if !CellHasData(t, f, c) {
      PartZero(|t|, i => CellOf(t, f, i), i => Term(t, f, i), c);
    }
  }

  function TotalOf(row: CellRow, m: MetricType): int {
    if row.metricType == m then row.total else 0
  }

  lemma RowShare(t: Metrics, f: Filter, m: MetricType, c: int)
    requires 0 <= c
    ensures TotalOf(CellRowAt(t, f, c), m) == Share(t, f, m, c)
  {
    TypesDiffer(c % TYPES, m);
  }

  lemma TypesDiffer(n: nat, m: MetricType)
    requires n < TYPES
    ensures TypeAt(n) == m <==> n == Index(m)
  {
  }

  lemma BreakdownAddsUp(t: Metrics, f: Filter, m: MetricType)
    ensures SumRows(Breakdown(t, f), (row: CellRow) => TotalOf(row, m)) == TypeTotal(t, f, m)
  {
    SharesAddUp(t, f, m);
    forall c | 0 <= c < TYPES * Days(f)
      ensures Share(t, f, m, c) == (if CellHasData(t, f, c) then TotalOf(CellRowAt(t, f, c), m) else 0)
    {
      RowShare(t, f, m, c);
      NoDataNoTotal(t, f, c);
    }
    RowsSum(TYPES * Days(f), c => CellHasData(t, f, c), c => CellRowAt(t, f, c), (row: CellRow) => TotalOf(row, m),
            c => Share(t, f, m, c));
  }

  /** The overview lists exactly the types that have data in scope, each with the sum of its lines
      in the daily breakdown. */
  lemma OverviewIsBreakdownSum(t: Metrics, f: Filter, m: MetricType)
    ensures m in Overview(t, f) <==> TypeHasData(t, f, m)
    ensures SumRows(Breakdown(t, f), (row: CellRow) => TotalOf(row, m)) == (if m in Overview(t, f) then Overview(t, f)[m] else 0)
  {
    BreakdownAddsUp(t, f, m);
    if !TypeHasData(t, f, m) {
      forall i | 0 <= i < |t| && TypeOf(t, i) == Index(m) ensures Term(t, f, i) == 0 {
        TypesDiffer(TypeOf(t, i), m);
      }
      PartZero(|t|, i => TypeOf(t, i), i => Term(t, f, i), Index(m));
    }
  }

  // ---- Daily totals ------------------------------------------------------------------------------

  function DailyRows(t: Metrics, f: Filter, n: nat): seq<CellRow> {
    Rows(n, c => DailyCellHasData(t, f, c), c => CellRowAt(t, f, c))
  }

  lemma DailyRowsStep(t: Metrics, f: Filter, n: nat)
    requires n > 0
    ensures ByDate(DailyRows(t, f, n)) ==
            if DailyCellHasData(t, f, n - 1) then Entered(ByDate(DailyRows(t, f, n - 1)), CellRowAt(t, f, n - 1))
            else ByDate(DailyRows(t, f, n - 1))
  {
    var before := DailyRows(t, f, n - 1);
    assert (before + [CellRowAt(t, f, n - 1)])[..|before|] == before;
    assert before + [] == before;
  }

  lemma EnteredLine(byDate: map<int, DayLine>, row: CellRow, d: int, m: MetricType)
    requires Daily(m)
    ensures In(LineOf(Entered(byDate, row), d), m) ==
            if row.day == d && row.metricType == m then Truncated(row.total) else In(LineOf(byDate, d), m)
  {
  }

  lemma CellIs(c: nat, d: nat, m: MetricType)
    ensures c / TYPES == d && TypeAt(c % TYPES) == m <==> c == Cell(d, Index(m))
  {
    CellParts(d, Index(m));
    TypesDiffer(c % TYPES, m);
    CellRebuilt(c);
  }

  /** The row of cell `c` enters its total, and nothing else, for a day and type. */
  lemma CellEnters(t: Metrics, f: Filter, c: nat, byDate: map<int, DayLine>, d: nat, m: MetricType)
    requires Daily(m)
    ensures In(LineOf(Entered(byDate, CellRowAt(t, f, c)), d), m) ==
            if c == Cell(d, Index(m)) then Truncated(CellTotal(t, f, c)) else In(LineOf(byDate, d), m)
  {
    CellIs(c, d, m);
    EnteredLine(byDate, CellRowAt(t, f, c), d, m);
  }

  lemma DailyCell(t: Metrics, f: Filter, d: nat, m: MetricType)
    requires Daily(m)
    ensures DailyCellHasData(t, f, Cell(d, Index(m))) == CellHasData(t, f, Cell(d, Index(m)))
  {
    CellParts(d, Index(m));
  }

  lemma DictionaryOneMore(t: Metrics, f: Filter, c: nat, d: nat, m: MetricType)
    requires Daily(m)
    ensures In(LineOf(ByDate(DailyRows(t, f, c + 1)), d), m) ==
            if c == Cell(d, Index(m)) && CellHasData(t, f, c) then Truncated(CellTotal(t, f, c))
            else In(LineOf(ByDate(DailyRows(t, f, c)), d), m)
  {
    DailyRowsStep(t, f, c + 1);
    DailyCell(t, f, d, m);
    CellEnters(t, f, c, ByDate(DailyRows(t, f, c)), d, m);
  }

  /** What the dictionary holds for a day and type: the truncated total of that cell, if it came up. */
  lemma {:induction false} ByDateHolds(t: Metrics, f: Filter, n: nat, d: nat, m: MetricType)
    requires Daily(m)
    ensures In(LineOf(ByDate(DailyRows(t, f, n)), d), m) ==
            if Cell(d, Index(m)) < n && CellHasData(t, f, Cell(d, Index(m))) then Truncated(CellTotal(t, f, Cell(d, Index(m))))
            else 0
  {
    if n > 0 {
      ByDateHolds(t, f, n - 1, d, m);
      DictionaryOneMore(t, f, n - 1, d, m);
    }
  }

  lemma CellRebuilt(c: nat)
    ensures Cell(c / TYPES, c % TYPES) == c
  {
  }

  ghost predicate DailyCellOn(t: Metrics, f: Filter, c: nat, d: int) {
    DailyCellHasData(t, f, c) && c / TYPES == d
  }

  /** The dictionary has a day exactly when the query has a row for it. */
  lemma {:induction false} ListedExactly(t: Metrics, f: Filter, n: nat, d: nat)
    ensures DayListed(ByDate(DailyRows(t, f, n)), d) <==> exists c: nat :: c < n && DailyCellOn(t, f, c, d)
  {
    if n > 0 {
      ListedExactly(t, f, n - 1, d);
      DailyRowsStep(t, f, n);
      if DailyCellOn(t, f, n - 1, d) {
        assert DayListed(ByDate(DailyRows(t, f, n)), d);
      }
    }
  }

  /** The daily series has a line for a day exactly when a row in scope of one of its four types is of
      that day. */
  lemma DayListedExactlyWithData(t: Metrics, f: Filter, d: nat)
    requires d < Days(f)
    ensures DayListed(ByDate(DailyQuery(t, f)), d) <==>
            exists i :: 0 <= i < |t| && InScope(t, f, i) && Daily(t[i].key.metricType) && t[i].key.date == f.start + d
  {
    ListedExactly(t, f, TYPES * Days(f), d);
    if i :| 0 <= i < |t| && InScope(t, f, i) && Daily(t[i].key.metricType) && t[i].key.date == f.start + d {
      CellInRange(t, f, i);
      CellParts(d, Index(t[i].key.metricType));
      assert DailyCellOn(t, f, CellOf(t, f, i), d);
    }
    if DayListed(ByDate(DailyQuery(t, f)), d) {
      var c: nat :| c < TYPES * Days(f) && DailyCellOn(t, f, c, d);
      var i :| 0 <= i < |t| && InScope(t, f, i) && CellOf(t, f, i) == c;
      CellParts(t[i].key.date - f.start, Index(t[i].key.metricType));
    }
  }

  function DayTotal(t: Metrics, f: Filter, m: MetricType, d: int): int {
    CellTotal(t, f, Cell(d, Index(m)))
  }

  function DayOf(t: Metrics, f: Filter, i: int): int {
    if 0 <= i < |t| then t[i].key.date - f.start else -1
  }

  lemma DayTotalIsPart(t: Metrics, f: Filter, m: MetricType, d: int)
    ensures DayTotal(t, f, m, d) == Part(|t|, i => DayOf(t, f, i), i => TypeTerm(t, f, m, i), d)
  {
    forall i | 0 <= i < |t|
      ensures CellOf(t, f, i) == Cell(d, Index(m)) <==> DayOf(t, f, i) == d && TypeOf(t, i) == Index(m)
    {
      CellParts(t[i].key.date - f.start, Index(t[i].key.metricType));
      CellParts(d, Index(m));
    }
    PartIsSum(|t|, i => CellOf(t, f, i), i => Term(t, f, i), Cell(d, Index(m)),
              (i: int) => if DayOf(t, f, i) == d then TypeTerm(t, f, m, i) else 0);
    PartIsSum(|t|, i => DayOf(t, f, i), i => TypeTerm(t, f, m, i), d,
              (i: int) => if DayOf(t, f, i) == d then TypeTerm(t, f, m, i) else 0);
  }

  lemma DayTotalsAddUp(t: Metrics, f: Filter, m: MetricType)
    ensures Sum(Days(f), d => DayTotal(t, f, m, d)) == TypeTotal(t, f, m)
  {
    forall d | 0 <= d < Days(f) ensures DayTotal(t, f, m, d) == Part(|t|, i => DayOf(t, f, i), i => TypeTerm(t, f, m, i), d) {
      DayTotalIsPart(t, f, m, d);
    }
    GroupsAdd(Days(f), |t|, i => DayOf(t, f, i), i => TypeTerm(t, f, m, i), d => DayTotal(t, f, m, d));
    PartIsSum(|t|, i => TypeOf(t, i), i => Term(t, f, i), Index(m), i => TypeTerm(t, f, m, i));
  }

  lemma TruncationLosesLittle(v: int)
    ensures -UNIT < v - UNIT * Truncated(v) < UNIT
    ensures v >= 0 ==> UNIT * Truncated(v) <= v
  {
  }

  /** One day's line: its truncated total, or no line and no total. */
  lemma DayLineHolds(t: Metrics, f: Filter, m: MetricType, d: nat)
    requires Daily(m) && d < Days(f)
    ensures var byDate := ByDate(DailyQuery(t, f));
            && In(LineOf(byDate, d), m) == Truncated(DayTotal(t, f, m, d))
            && (!DayListed(byDate, d) ==> DayTotal(t, f, m, d) == 0)
  {
    var c := Cell(d, Index(m));
    ByDateHolds(t, f, TYPES * Days(f), d, m);
    NoDataNoTotal(t, f, c);
    if CellHasData(t, f, c) {
      ListedExactly(t, f, TYPES * Days(f), d);
      CellParts(d, Index(m));
      assert DailyCellOn(t, f, c, d);
    }
  }

  function DailyLines(t: Metrics, f: Filter, n: nat): seq<DayRow> {
    var byDate := ByDate(DailyQuery(t, f));
    Rows(n, d => DayListed(byDate, d), d => DayRowOf(f, byDate, d))
  }

  function LinesTotal(lines: seq<DayRow>, m: MetricType): int {
    SumRows(lines, (line: DayRow) => In(line.counts, m))
  }

  lemma DailyLinesStep(t: Metrics, f: Filter, m: MetricType, n: nat)
    requires 0 < n
    ensures var byDate := ByDate(DailyQuery(t, f));
            var listed := DayListed(byDate, n - 1);
            && |DailyLines(t, f, n)| == |DailyLines(t, f, n - 1)| + (if listed then 1 else 0)
            && LinesTotal(DailyLines(t, f, n), m) == LinesTotal(DailyLines(t, f, n - 1), m)
                                                     + (if listed then In(LineOf(byDate, n - 1), m) else 0)
  {
    var before := DailyLines(t, f, n - 1);
    assert (before + [DayRowOf(f, ByDate(DailyQuery(t, f)), n - 1)])[..|before|] == before;
    assert before + [] == before;
  }

  ghost predicate NonNegativeDays(t: Metrics, f: Filter, m: MetricType, n: nat) {
    forall d | 0 <= d < n :: DayTotal(t, f, m, d) >= 0
  }

  lemma {:induction false} LinesFallShort(t: Metrics, f: Filter, m: MetricType, n: nat)
    requires Daily(m) && n <= Days(f)
    ensures var gap := Sum(n, d => DayTotal(t, f, m, d)) - UNIT * LinesTotal(DailyLines(t, f, n), m);
            && -(UNIT - 1) * |DailyLines(t, f, n)| <= gap <= (UNIT - 1) * |DailyLines(t, f, n)|
            && (NonNegativeDays(t, f, m, n) ==> gap >= 0)
  {
    if n > 0 {
      LinesFallShort(t, f, m, n - 1);
      DailyLinesStep(t, f, m, n);
      DayLineHolds(t, f, m, n - 1);
      TruncationLosesLittle(DayTotal(t, f, m, n - 1));
    }
  }

  lemma {:induction false} SumNonNegative(n: nat, f: int -> int)
    requires forall i | 0 <= i < n :: f(i) >= 0
    ensures Sum(n, f) >= 0
  {
    if n > 0 {
      SumNonNegative(n - 1, f);
    }
  }

  lemma DaysAreNonNegative(t: Metrics, f: Filter, m: MetricType)
    requires forall i | 0 <= i < |t| :: t[i].value >= 0
    ensures NonNegativeDays(t, f, m, Days(f))
  {
    forall d | 0 <= d < Days(f) ensures DayTotal(t, f, m, d) >= 0 {
      SumNonNegative(|t|, (i: int) => if CellOf(t, f, i) == Cell(d, Index(m)) then Term(t, f, i) else 0);
      PartIsSum(|t|, i => CellOf(t, f, i), i => Term(t, f, i), Cell(d, Index(m)),
                (i: int) => if CellOf(t, f, i) == Cell(d, Index(m)) then Term(t, f, i) else 0);
    }
  }

  /** For each of its four types the daily series differs from the overview by less than one per day
      listed, and falls short of it when no value is negative. */
  lemma DailyTotalsFallShort(t: Metrics, f: Filter, m: MetricType)
    requires Daily(m)
    ensures var gap := (if m in Overview(t, f) then Overview(t, f)[m] else 0) - UNIT * LinesTotal(DailyTotals(t, f), m);
            && -(UNIT - 1) * |DailyTotals(t, f)| <= gap <= (UNIT - 1) * |DailyTotals(t, f)|
            && ((forall i | 0 <= i < |t| :: t[i].value >= 0) ==> gap >= 0)
  {
    OverviewIsBreakdownSum(t, f, m);
    BreakdownAddsUp(t, f, m);
    DayTotalsAddUp(t, f, m);
    LinesFallShort(t, f, m, Days(f));
    if forall i | 0 <= i < |t| :: t[i].value >= 0 {
      DaysAreNonNegative(t, f, m);
    }
  }
}
