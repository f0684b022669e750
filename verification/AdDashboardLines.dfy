/** Every line of the ads dashboard, told by one pass over the metric rows: who has a line, what
    it is called, and which four columns its totals add up. */
module AdDashboardLines {
  import opened Common
  import opened Tables
  import opened AdStore
  import opened Sums
  import opened AdDashboard

  // ---- One pass over the metrics --------------------------------------------------------------

  function Plus(a: Totals, b: Totals): Totals {
    Totals(a.spend + b.spend, a.impressions + b.impressions, a.clicks + b.clicks, a.conversions + b.conversions)
  }

  predicate Within(r: Range, day: int) {
    r.start <= day <= r.end
  }

  /** The four columns of the wanted rows with a date in the range, both ends included, added up. */
  function Tally(rows: Metrics, r: Range, wanted: MetricKey -> bool): Totals {
    if rows == [] then Totals(0, 0, 0, 0)
    else
      var row, before := rows[|rows| - 1], Tally(rows[..|rows| - 1], r, wanted);
      if Within(r, row.key.date) && wanted(row.key) then
        Plus(before, Totals(row.value.spend, row.value.impressions, row.value.clicks, row.value.conversions))
      else before
  }

  predicate SomeRow(db: Db, r: Range, wanted: MetricKey -> bool) {
    exists i :: 0 <= i < |db.metrics| && Within(r, db.metrics[i].key.date) && wanted(db.metrics[i].key)
  }

  // Which metrics belong to an ad, a group, a campaign, a platform.

  predicate OfAd(k: MetricKey, a: int) {
    k.ad == a
  }

  predicate OfGroup(db: Db, k: MetricKey, g: int) {
    k.ad < |db.ads| && db.ads[k.ad].key.group == g
  }

  predicate OfCampaign(db: Db, k: MetricKey, c: int) {
    k.ad < |db.ads| && db.ads[k.ad].key.group < |db.groups| && db.groups[db.ads[k.ad].key.group].key.campaign == c
  }

  predicate OfPlatform(db: Db, k: MetricKey, p: Platform) {
    && k.ad < |db.ads| && db.ads[k.ad].key.group < |db.groups|
    && db.groups[db.ads[k.ad].key.group].key.campaign < |db.campaigns|
    && db.campaigns[db.groups[db.ads[k.ad].key.group].key.campaign].key.platform == p
  }

  lemma {:induction false} TallyIsSum(rows: Metrics, r: Range, wanted: MetricKey -> bool, m: Measure, f: int -> int)
    requires forall i | 0 <= i < |rows| :: f(i) == if Within(r, rows[i].key.date) && wanted(rows[i].key) then Amount(rows[i].value, m) else 0
    ensures In(Tally(rows, r, wanted), m) == Sum(|rows|, f)
  {
    if rows != [] {
      TallyIsSum(rows[..|rows| - 1], r, wanted, m, f);
    }
  }

  lemma AllTotalsAre(f: Measure -> int, t: Totals)
    requires forall m :: f(m) == In(t, m)
    ensures AllTotals(f) == t
  {
    assert f(Spend) == In(t, Spend) && f(Impressions) == In(t, Impressions);
    assert f(Clicks) == In(t, Clicks) && f(Conversions) == In(t, Conversions);
  }

  function RangeTotal(db: Db, r: Range, m: Measure): int {
    Sum(|db.metrics|, i => Term(db, r, m, i))
  }

  /** The overview is the tally of all rows. */
  lemma OverviewVerdict(db: Db, r: Range)
    ensures Overview(db, r) == Tally(db.metrics, r, _ => true)
  {
    forall m ensures RangeTotal(db, r, m) == In(Tally(db.metrics, r, _ => true), m) {
      TallyIsSum(db.metrics, r, _ => true, m, i => Term(db, r, m, i));
    }
    AllTotalsAre(m => RangeTotal(db, r, m), Tally(db.metrics, r, _ => true));
    assert Overview(db, r) == AllTotals(m => RangeTotal(db, r, m));
  }

  // ---- Totals of a line -------------------------------------------------------------------------

  /** A part of the joined sum is the tally of the rows that belong to it. */
  lemma PartIsTally(db: Db, r: Range, m: Measure, key: int -> int, x: int, wanted: MetricKey -> bool)
    requires forall i | 0 <= i < |db.metrics| :: key(i) == x <==> wanted(db.metrics[i].key)
    ensures Part(|db.metrics|, key, i => Term(db, r, m, i), x) == In(Tally(db.metrics, r, wanted), m)
  {
    var f := (i: int) => if key(i) == x then Term(db, r, m, i) else 0;
    PartIsSum(|db.metrics|, key, i => Term(db, r, m, i), x, f);
    TallyIsSum(db.metrics, r, wanted, m, f);
  }

  lemma AdTallies(db: Db, r: Range, a: int)
    ensures AllTotals(m => AdTotal(db, r, m, a)) == Tally(db.metrics, r, k => OfAd(k, a))
  {
    forall m ensures AdTotal(db, r, m, a) == In(Tally(db.metrics, r, k => OfAd(k, a)), m) {
      PartIsTally(db, r, m, i => AdOf(db, i), a, k => OfAd(k, a));
    }
    AllTotalsAre(m => AdTotal(db, r, m, a), Tally(db.metrics, r, k => OfAd(k, a)));
  }

  lemma GroupTallies(db: Db, r: Range, g: int)
    requires ForeignKeys(db)
    ensures AllTotals(m => GroupTotal(db, r, m, g)) == Tally(db.metrics, r, k => OfGroup(db, k, g))
  {
    forall m ensures GroupTotal(db, r, m, g) == In(Tally(db.metrics, r, k => OfGroup(db, k, g)), m) {
      GroupTotalIsFlat(db, r, m, g);
      PartIsTally(db, r, m, i => JoinedGroup(db, i), g, k => OfGroup(db, k, g));
    }
    AllTotalsAre(m => GroupTotal(db, r, m, g), Tally(db.metrics, r, k => OfGroup(db, k, g)));
  }

  lemma CampaignTallies(db: Db, r: Range, c: int)
    requires ForeignKeys(db)
    ensures AllTotals(m => CampaignTotal(db, r, m, c)) == Tally(db.metrics, r, k => OfCampaign(db, k, c))
  {
    forall m ensures CampaignTotal(db, r, m, c) == In(Tally(db.metrics, r, k => OfCampaign(db, k, c)), m) {
      CampaignTotalIsFlat(db, r, m, c);
      PartIsTally(db, r, m, i => JoinedCampaign(db, i), c, k => OfCampaign(db, k, c));
    }
    AllTotalsAre(m => CampaignTotal(db, r, m, c), Tally(db.metrics, r, k => OfCampaign(db, k, c)));
  }

  lemma PlatformIndex(db: Db, p: Platform, i: int)
    requires ForeignKeys(db) && 0 <= i < |db.metrics|
    ensures JoinedPlatform(db, i) == Index(p) <==> OfPlatform(db, db.metrics[i].key, p)
  {
  }

  lemma PlatformTallies(db: Db, r: Range, p: Platform)
    requires ForeignKeys(db)
    ensures AllTotals(m => PlatformTotal(db, r, m, p)) == Tally(db.metrics, r, k => OfPlatform(db, k, p))
  {
    forall m ensures PlatformTotal(db, r, m, p) == In(Tally(db.metrics, r, k => OfPlatform(db, k, p)), m) {
      PlatformTotalIsFlat(db, r, m, p);
      TallyIsSum(db.metrics, r, k => OfPlatform(db, k, p), m, i => PlatformTerm(db, r, m, Some(p), i));
    }
    AllTotalsAre(m => PlatformTotal(db, r, m, p), Tally(db.metrics, r, k => OfPlatform(db, k, p)));
  }

  /** The day's rows, of one platform or of all. */
  predicate OfDay(db: Db, platform: Option<Platform>, k: MetricKey, day: int) {
    k.date == day && (platform.Some? ==> OfPlatform(db, k, platform.value))
  }

  lemma DayTallies(db: Db, r: Range, platform: Option<Platform>, d: int)
    requires ForeignKeys(db)
    ensures AllTotals(m => NthDayTotal(db, r, m, platform, d)) == Tally(db.metrics, r, k => OfDay(db, platform, k, r.start + d))
  {
    var wanted := (k: MetricKey) => OfDay(db, platform, k, r.start + d);
    forall m ensures NthDayTotal(db, r, m, platform, d) == In(Tally(db.metrics, r, wanted), m) {
      var f := (i: int) => if DayOf(db, i) == r.start + d then PlatformTerm(db, r, m, platform, i) else 0;
      PartIsSum(|db.metrics|, i => DayOf(db, i), i => PlatformTerm(db, r, m, platform, i), r.start + d, f);
      TallyIsSum(db.metrics, r, wanted, m, f);
    }
    AllTotalsAre(m => NthDayTotal(db, r, m, platform, d), Tally(db.metrics, r, wanted));
  }

  // ---- Who has a line -----------------------------------------------------------------------------

  lemma AdHasRow(db: Db, r: Range, a: int)
    ensures AdHasData(db, r, a) <==> SomeRow(db, r, k => OfAd(k, a))
  {
    if i :| 0 <= i < |db.metrics| && Within(r, db.metrics[i].key.date) && OfAd(db.metrics[i].key, a) {
      assert Selected(db, r, i);
    }
  }

  lemma GroupHasRow(db: Db, r: Range, g: int)
    requires ForeignKeys(db)
    ensures GroupHasData(db, r, g) <==> SomeRow(db, r, k => OfGroup(db, k, g))
  {
    if i :| 0 <= i < |db.metrics| && Within(r, db.metrics[i].key.date) && OfGroup(db, db.metrics[i].key, g) {
      assert Selected(db, r, i) && AdHasData(db, r, AdOf(db, i));
    }
  }

  lemma CampaignHasRow(db: Db, r: Range, c: int)
    requires ForeignKeys(db)
    ensures CampaignHasData(db, r, c) <==> SomeRow(db, r, k => OfCampaign(db, k, c))
  {
    if i :| 0 <= i < |db.metrics| && Within(r, db.metrics[i].key.date) && OfCampaign(db, db.metrics[i].key, c) {
      var g := db.ads[db.metrics[i].key.ad].key.group;
      assert OfGroup(db, db.metrics[i].key, g);
      GroupHasRow(db, r, g);
    }
    if CampaignHasData(db, r, c) {
      var g :| 0 <= g < |db.groups| && CampaignOf(db, g) == c && GroupHasData(db, r, g);
      GroupHasRow(db, r, g);
    }
  }

  lemma PlatformHasRow(db: Db, r: Range, p: Platform)
    requires ForeignKeys(db)
    ensures PlatformHasData(db, r, Index(p)) <==> SomeRow(db, r, k => OfPlatform(db, k, p))
  {
    if i :| 0 <= i < |db.metrics| && Within(r, db.metrics[i].key.date) && OfPlatform(db, db.metrics[i].key, p) {
      var c := db.groups[db.ads[db.metrics[i].key.ad].key.group].key.campaign;
      assert OfCampaign(db, db.metrics[i].key, c);
      CampaignHasRow(db, r, c);
    }
    if PlatformHasData(db, r, Index(p)) {
      var c :| 0 <= c < |db.campaigns| && PlatformOf(db, c) == Index(p) && CampaignHasData(db, r, c);
      CampaignHasRow(db, r, c);
    }
  }

  // ---- The queries --------------------------------------------------------------------------------

  function Nth(p: int): Platform {
    if p == 0 then Meta else if p == 1 then Google else LinkedIn
  }

  function PlatformLine(db: Db, r: Range, p: int): PlatformRow {
    PlatformRow(Nth(p), Tally(db.metrics, r, k => OfPlatform(db, k, Nth(p))))
  }

  /** A platform has a line exactly when a metric in range is of it. */
  lemma PlatformLines(db: Db, r: Range)
    requires ForeignKeys(db)
    ensures Listing(PlatformSummary(db, r), 3, p => SomeRow(db, r, k => OfPlatform(db, k, Nth(p))), p => PlatformLine(db, r, p))
  {
    forall p | 0 <= p < 3
      ensures PlatformHasData(db, r, p) == SomeRow(db, r, k => OfPlatform(db, k, Nth(p)))
      ensures PlatformRow(PlatformAt(p), AllTotals(m => PlatformTotal(db, r, m, PlatformAt(p)))) == PlatformLine(db, r, p)
    {
      assert p == Index(Nth(p)) && PlatformAt(p) == Nth(p);
      PlatformHasRow(db, r, Nth(p));
      PlatformTallies(db, r, Nth(p));
    }
    RowsAreListed(3, p => PlatformHasData(db, r, p), p => PlatformRow(PlatformAt(p), AllTotals(m => PlatformTotal(db, r, m, PlatformAt(p)))),
                  p => SomeRow(db, r, k => OfPlatform(db, k, Nth(p))), p => PlatformLine(db, r, p));
  }

  predicate HasCampaignLine(db: Db, r: Range, platform: Option<Platform>, c: int) {
    && 0 <= c < |db.campaigns| && (platform.Some? ==> db.campaigns[c].key.platform == platform.value)
    && SomeRow(db, r, k => OfCampaign(db, k, c))
  }

  predicate IsCampaignLine(db: Db, r: Range, c: int, line: CampaignRow) {
    && 0 <= c < |db.campaigns| && line.id == c
    && line.platform == db.campaigns[c].key.platform && line.name == db.campaigns[c].value
    && line.totals == Tally(db.metrics, r, k => OfCampaign(db, k, c))
  }

  /** A campaign has a line exactly when it is of the platform asked for and a metric in range
      is of it. */
  lemma CampaignLines(db: Db, r: Range, platform: Option<Platform>)
    requires ForeignKeys(db)
    ensures Listing(GetCampaigns(db, r, platform), |db.campaigns|, c => HasCampaignLine(db, r, platform, c), c => CampaignRowOf(db, r, c))
    ensures forall c | 0 <= c < |db.campaigns| :: IsCampaignLine(db, r, c, CampaignRowOf(db, r, c))
  {
    forall c | 0 <= c < |db.campaigns|
      ensures (CampaignHasData(db, r, c) && (platform.None? || PlatformOf(db, c) == Index(platform.value))) == HasCampaignLine(db, r, platform, c)
      ensures IsCampaignLine(db, r, c, CampaignRowOf(db, r, c))
    {
      CampaignHasRow(db, r, c);
      CampaignTallies(db, r, c);
    }
    RowsAreListed(|db.campaigns|, c => CampaignHasData(db, r, c) && (platform.None? || PlatformOf(db, c) == Index(platform.value)),
                  c => CampaignRowOf(db, r, c), c => HasCampaignLine(db, r, platform, c), c => CampaignRowOf(db, r, c));
  }

  predicate HasGroupLine(db: Db, r: Range, c: int, g: int) {
    0 <= g < |db.groups| && db.groups[g].key.campaign == c && SomeRow(db, r, k => OfGroup(db, k, g))
  }

  predicate IsGroupLine(db: Db, r: Range, g: int, line: GroupRow) {
    && 0 <= g < |db.groups| && line.id == g && line.name == db.groups[g].value
    && line.totals == Tally(db.metrics, r, k => OfGroup(db, k, g))
  }

  predicate HasAdLine(db: Db, r: Range, c: int, a: int) {
    && 0 <= a < |db.ads| && db.ads[a].key.group < |db.groups| && db.groups[db.ads[a].key.group].key.campaign == c
    && SomeRow(db, r, k => OfAd(k, a))
  }

  predicate IsAdLine(db: Db, r: Range, a: int, line: AdRow) {
    && 0 <= a < |db.ads| && db.ads[a].key.group < |db.groups| && line.id == a
    && line.name == db.ads[a].value && line.groupName == db.groups[db.ads[a].key.group].value
    && line.totals == Tally(db.metrics, r, k => OfAd(k, a))
  }

  /** The detail of a campaign there is has a line for each of its groups, and for each of its ads,
      with a metric in range. */
  lemma GroupLines(db: Db, r: Range, c: nat)
    requires ForeignKeys(db) && c < |db.campaigns|
    ensures CampaignDetail(db, r, c).Some?
    ensures Listing(CampaignDetail(db, r, c).value.adGroups, |db.groups|, g => HasGroupLine(db, r, c, g), g => GroupRowOf(db, r, g))
    ensures forall g | 0 <= g < |db.groups| :: IsGroupLine(db, r, g, GroupRowOf(db, r, g))
  {
    forall g | 0 <= g < |db.groups|
      ensures (CampaignOf(db, g) == c && GroupHasData(db, r, g)) == HasGroupLine(db, r, c, g)
      ensures IsGroupLine(db, r, g, GroupRowOf(db, r, g))
    {
      GroupHasRow(db, r, g);
      GroupTallies(db, r, g);
    }
    RowsAreListed(|db.groups|, g => CampaignOf(db, g) == c && GroupHasData(db, r, g), g => GroupRowOf(db, r, g),
                  g => HasGroupLine(db, r, c, g), g => GroupRowOf(db, r, g));
  }

  lemma AdLines(db: Db, r: Range, c: nat)
    requires ForeignKeys(db) && c < |db.campaigns|
    ensures CampaignDetail(db, r, c).Some?
    ensures Listing(CampaignDetail(db, r, c).value.ads, |db.ads|, a => HasAdLine(db, r, c, a), a => AdRowOf(db, r, a))
    ensures forall a | 0 <= a < |db.ads| :: IsAdLine(db, r, a, AdRowOf(db, r, a))
  {
    forall a | 0 <= a < |db.ads|
      ensures (AdCampaign(db, a) == c && AdHasData(db, r, a)) == HasAdLine(db, r, c, a)
      ensures IsAdLine(db, r, a, AdRowOf(db, r, a))
    {
      AdHasRow(db, r, a);
      AdTallies(db, r, a);
    }
    RowsAreListed(|db.ads|, a => AdCampaign(db, a) == c && AdHasData(db, r, a), a => AdRowOf(db, r, a),
                  a => HasAdLine(db, r, c, a), a => AdRowOf(db, r, a));
  }

  function LineOfDay(db: Db, r: Range, platform: Option<Platform>, d: int): DayRow {
    DayRow(r.start + d, Tally(db.metrics, r, k => OfDay(db, platform, k, r.start + d)))
  }

  /** The daily series has a line for each day of the range with a metric, of the platform asked for. */
  lemma DayLines(db: Db, r: Range, platform: Option<Platform>)
    requires ForeignKeys(db)
    ensures Listing(DailyTotals(db, r, platform), if r.end < r.start then 0 else r.end - r.start + 1,
                    d => SomeRow(db, r, k => OfDay(db, platform, k, r.start + d)), d => LineOfDay(db, r, platform, d))
  {
    forall d | 0 <= d < Days(r)
      ensures NthDayHasData(db, r, platform, d) == SomeRow(db, r, k => OfDay(db, platform, k, r.start + d))
      ensures NthDayRow(db, r, platform, d) == LineOfDay(db, r, platform, d)
    {
      DayHasRow(db, r, platform, r.start + d);
      DayTallies(db, r, platform, d);
    }
    RowsAreListed(Days(r), d => NthDayHasData(db, r, platform, d), d => NthDayRow(db, r, platform, d),
                  d => SomeRow(db, r, k => OfDay(db, platform, k, r.start + d)), d => LineOfDay(db, r, platform, d));
  }

  lemma DayHasRow(db: Db, r: Range, platform: Option<Platform>, day: int)
    requires ForeignKeys(db)
    ensures DayHasData(db, r, platform, day) <==> SomeRow(db, r, k => OfDay(db, platform, k, day))
  {
    forall i | 0 <= i < |db.metrics|
      ensures Selected(db, r, i) && DayOf(db, i) == day && (platform.None? || JoinedPlatform(db, i) == Index(platform.value))
         <==> Within(r, db.metrics[i].key.date) && OfDay(db, platform, db.metrics[i].key, day)
    {
    }
  }
}
