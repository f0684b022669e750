/** The ads dashboard (app/services/ad_dashboard_service.py): grouped totals over the joined
    hierarchy, and their agreement with the overview. */
module AdDashboard {
  import opened Common
  import opened Tables
  import opened AdStore
  import opened Sums

  datatype Measure = Spend | Impressions | Clicks | Conversions

  datatype Totals = Totals(spend: int, impressions: int, clicks: int, conversions: int)

  /** The selected dates, both included. */
  datatype Range = Range(start: int, end: int)

  datatype PlatformRow = PlatformRow(platform: Platform, totals: Totals)
  datatype CampaignRow = CampaignRow(id: int, platform: Platform, name: string, totals: Totals)
  datatype GroupRow = GroupRow(id: int, name: string, totals: Totals)
  datatype AdRow = AdRow(id: int, name: string, groupName: string, totals: Totals)
  datatype DayRow = DayRow(date: int, totals: Totals)
  datatype Detail = Detail(adGroups: seq<GroupRow>, ads: seq<AdRow>)

  function Amount(v: Values, m: Measure): int {
    match m
    case Spend => v.spend
    case Impressions => v.impressions
    case Clicks => v.clicks
    case Conversions => v.conversions
  }

  function In(t: Totals, m: Measure): int {
    match m
    case Spend => t.spend
    case Impressions => t.impressions
    case Clicks => t.clicks
    case Conversions => t.conversions
  }

  function AllTotals(f: Measure -> int): Totals {
    Totals(f(Spend), f(Impressions), f(Clicks), f(Conversions))
  }

  // ---- Joins -----------------------------------------------------------------------------

  predicate Selected(db: Db, r: Range, i: int) {
    0 <= i < |db.metrics| && r.start <= db.metrics[i].key.date <= r.end
  }

  /** What metric row `i` adds to a sum over the range. */
  function Term(db: Db, r: Range, m: Measure, i: int): int {
    if Selected(db, r, i) then Amount(db.metrics[i].value, m) else 0
  }

  function AdOf(db: Db, i: int): int {
    if 0 <= i < |db.metrics| then db.metrics[i].key.ad else -1
  }

  function GroupOf(db: Db, a: int): int {
    if 0 <= a < |db.ads| then db.ads[a].key.group else -1
  }

  function CampaignOf(db: Db, g: int): int {
    if 0 <= g < |db.groups| then db.groups[g].key.campaign else -1
  }

  function PlatformOf(db: Db, c: int): int {
    if 0 <= c < |db.campaigns| then Index(db.campaigns[c].key.platform) else -1
  }

  function Index(p: Platform): nat {
    match p
    case Meta => 0
    case Google => 1
    case LinkedIn => 2
  }

  function PlatformAt(n: int): Platform {
    if n == 0 then Meta else if n == 1 then Google else LinkedIn
  }

  // The joined sums, as nested loops: metrics of an ad, ads of a group, groups of a campaign,
  // campaigns of a platform.

  function AdTotal(db: Db, r: Range, m: Measure, a: int): int {
    Part(|db.metrics|, i => AdOf(db, i), i => Term(db, r, m, i), a)
  }

  function GroupTotal(db: Db, r: Range, m: Measure, g: int): int {
    Part(|db.ads|, a => GroupOf(db, a), a => AdTotal(db, r, m, a), g)
  }

  function CampaignTotal(db: Db, r: Range, m: Measure, c: int): int {
    Part(|db.groups|, g => CampaignOf(db, g), g => GroupTotal(db, r, m, g), c)
  }

  function PlatformTotal(db: Db, r: Range, m: Measure, p: Platform): int {
    Part(|db.campaigns|, c => PlatformOf(db, c), c => CampaignTotal(db, r, m, c), Index(p))
  }

  /** A day's total, over one platform or over all. */
  function DayTotal(db: Db, r: Range, m: Measure, platform: Option<Platform>, day: int): int {
    Part(|db.metrics|, i => DayOf(db, i), i => PlatformTerm(db, r, m, platform, i), day)
  }

  function DayOf(db: Db, i: int): int {
    if 0 <= i < |db.metrics| then db.metrics[i].key.date else -1
  }

  /** The inner join of a metric with its hierarchy, restricted to a platform if one is given. */
  function PlatformTerm(db: Db, r: Range, m: Measure, platform: Option<Platform>, i: int): int {
    if platform.None? || JoinedPlatform(db, i) == Index(platform.value) then Term(db, r, m, i) else 0
  }

  function JoinedGroup(db: Db, i: int): int {
    if AdOf(db, i) >= 0 then GroupOf(db, AdOf(db, i)) else -1
  }

  function JoinedCampaign(db: Db, i: int): int {
    if JoinedGroup(db, i) >= 0 then CampaignOf(db, JoinedGroup(db, i)) else -1
  }

  function JoinedPlatform(db: Db, i: int): int {
    if JoinedCampaign(db, i) >= 0 then PlatformOf(db, JoinedCampaign(db, i)) else -1
  }

  // ---- The queries -------------------------------------------------------------------------

  function Overview(db: Db, r: Range): Totals {
    AllTotals(m => Sum(|db.metrics|, i => Term(db, r, m, i)))
  }

  /** Whether an inner join over the range has any row for ad `a`, group `g`, ... */
  predicate AdHasData(db: Db, r: Range, a: int) {
    exists i :: 0 <= i < |db.metrics| && Selected(db, r, i) && AdOf(db, i) == a
  }

  predicate GroupHasData(db: Db, r: Range, g: int) {
    exists a :: 0 <= a < |db.ads| && GroupOf(db, a) == g && AdHasData(db, r, a)
  }

  predicate CampaignHasData(db: Db, r: Range, c: int) {
    exists g :: 0 <= g < |db.groups| && CampaignOf(db, g) == c && GroupHasData(db, r, g)
  }

  predicate PlatformHasData(db: Db, r: Range, p: int) {
    exists c :: 0 <= c < |db.campaigns| && PlatformOf(db, c) == p && CampaignHasData(db, r, c)
  }

  predicate DayHasData(db: Db, r: Range, platform: Option<Platform>, day: int) {
    exists i :: 0 <= i < |db.metrics| && Selected(db, r, i) && DayOf(db, i) == day
             && (platform.None? || JoinedPlatform(db, i) == Index(platform.value))
  }

  function PlatformSummary(db: Db, r: Range): seq<PlatformRow> {
    Rows(3, p => PlatformHasData(db, r, p), p => PlatformRow(PlatformAt(p), AllTotals(m => PlatformTotal(db, r, m, PlatformAt(p)))))
  }

  function CampaignRowOf(db: Db, r: Range, c: int): CampaignRow {
    if 0 <= c < |db.campaigns| then
      CampaignRow(c, db.campaigns[c].key.platform, db.campaigns[c].value, AllTotals(m => CampaignTotal(db, r, m, c)))
    else CampaignRow(c, Meta, "", Totals(0, 0, 0, 0))
  }

  function GetCampaigns(db: Db, r: Range, platform: Option<Platform>): seq<CampaignRow> {
    Rows(|db.campaigns|,
         c => CampaignHasData(db, r, c) && (platform.None? || PlatformOf(db, c) == Index(platform.value)),
         c => CampaignRowOf(db, r, c))
  }

  function GroupRowOf(db: Db, r: Range, g: int): GroupRow {
    GroupRow(g, if 0 <= g < |db.groups| then db.groups[g].value else "", AllTotals(m => GroupTotal(db, r, m, g)))
  }

  function AdRowOf(db: Db, r: Range, a: int): AdRow {
    AdRow(a, if 0 <= a < |db.ads| then db.ads[a].value else "",
          if 0 <= GroupOf(db, a) < |db.groups| then db.groups[GroupOf(db, a)].value else "",
          AllTotals(m => AdTotal(db, r, m, a)))
  }

  function AdCampaign(db: Db, a: int): int {
    if GroupOf(db, a) >= 0 then CampaignOf(db, GroupOf(db, a)) else -1
  }

  function CampaignDetail(db: Db, r: Range, c: int): Option<Detail> {
    if !(0 <= c < |db.campaigns|) then None
    else Some(Detail(
      Rows(|db.groups|, g => CampaignOf(db, g) == c && GroupHasData(db, r, g), g => GroupRowOf(db, r, g)),
      Rows(|db.ads|, a => AdCampaign(db, a) == c && AdHasData(db, r, a), a => AdRowOf(db, r, a))))
  }

  function Days(r: Range): nat {
    if r.end < r.start then 0 else r.end - r.start + 1
  }

  function DailyTotals(db: Db, r: Range, platform: Option<Platform>): seq<DayRow> {
    Rows(Days(r), d => NthDayHasData(db, r, platform, d), d => NthDayRow(db, r, platform, d))
  }

  predicate NthDayHasData(db: Db, r: Range, platform: Option<Platform>, d: int) {
    DayHasData(db, r, platform, r.start + d)
  }

  function NthDayTotal(db: Db, r: Range, m: Measure, platform: Option<Platform>, d: int): int {
    DayTotal(db, r, m, platform, r.start + d)
  }

  function NthDayRow(db: Db, r: Range, platform: Option<Platform>, d: int): DayRow {
    DayRow(r.start + d, AllTotals(m => NthDayTotal(db, r, m, platform, d)))
  }

  // ---- Groups without data have zero totals -----------------------------------------------------

  lemma NoDataNoAdTotal(db: Db, r: Range, m: Measure, a: int)
    ensures !AdHasData(db, r, a) ==> AdTotal(db, r, m, a) == 0
  {
    if !AdHasData(db, r, a) {
      PartZero(|db.metrics|, i => AdOf(db, i), i => Term(db, r, m, i), a);
    }
  }

  lemma NoDataNoGroupTotal(db: Db, r: Range, m: Measure, g: int)
    ensures !GroupHasData(db, r, g) ==> GroupTotal(db, r, m, g) == 0
  {
    if !GroupHasData(db, r, g) {
      forall a | 0 <= a < |db.ads| && GroupOf(db, a) == g ensures AdTotal(db, r, m, a) == 0 {
        NoDataNoAdTotal(db, r, m, a);
      }
      PartZero(|db.ads|, a => GroupOf(db, a), a => AdTotal(db, r, m, a), g);
    }
  }

  lemma NoDataNoCampaignTotal(db: Db, r: Range, m: Measure, c: int)
    ensures !CampaignHasData(db, r, c) ==> CampaignTotal(db, r, m, c) == 0
  {
    if !CampaignHasData(db, r, c) {
      forall g | 0 <= g < |db.groups| && CampaignOf(db, g) == c ensures GroupTotal(db, r, m, g) == 0 {
        NoDataNoGroupTotal(db, r, m, g);
      }
      PartZero(|db.groups|, g => CampaignOf(db, g), g => GroupTotal(db, r, m, g), c);
    }
  }

  lemma NoDataNoPlatformTotal(db: Db, r: Range, m: Measure, p: Platform)
    ensures !PlatformHasData(db, r, Index(p)) ==> PlatformTotal(db, r, m, p) == 0
  {
    if !PlatformHasData(db, r, Index(p)) {
      forall c | 0 <= c < |db.campaigns| && PlatformOf(db, c) == Index(p) ensures CampaignTotal(db, r, m, c) == 0 {
        NoDataNoCampaignTotal(db, r, m, c);
      }
      PartZero(|db.campaigns|, c => PlatformOf(db, c), c => CampaignTotal(db, r, m, c), Index(p));
    }
  }

  lemma NoDataNoDayTotal(db: Db, r: Range, m: Measure, platform: Option<Platform>, day: int)
    ensures !DayHasData(db, r, platform, day) ==> DayTotal(db, r, m, platform, day) == 0
  {
    if !DayHasData(db, r, platform, day) {
      PartZero(|db.metrics|, i => DayOf(db, i), i => PlatformTerm(db, r, m, platform, i), day);
    }
  }

  // ---- Conservation ---------------------------------------------------------------------------

  /** Every metric belongs to an ad, every ad to a group, every group to a campaign. */
  ghost predicate ForeignKeys(db: Db) {
    && (forall i | 0 <= i < |db.metrics| :: db.metrics[i].key.ad < |db.ads|)
    && (forall a | 0 <= a < |db.ads| :: db.ads[a].key.group < |db.groups|)
    && (forall g | 0 <= g < |db.groups| :: db.groups[g].key.campaign < |db.campaigns|)
  }

  lemma AdsAddUp(db: Db, r: Range, m: Measure)
    requires ForeignKeys(db)
    ensures Sum(|db.ads|, a => AdTotal(db, r, m, a)) == Sum(|db.metrics|, i => Term(db, r, m, i))
  {
    GroupsAdd(|db.ads|, |db.metrics|, i => AdOf(db, i), i => Term(db, r, m, i), a => AdTotal(db, r, m, a));
  }

  lemma GroupsAddUp(db: Db, r: Range, m: Measure)
    requires ForeignKeys(db)
    ensures Sum(|db.groups|, g => GroupTotal(db, r, m, g)) == Sum(|db.metrics|, i => Term(db, r, m, i))
  {
    AdsAddUp(db, r, m);
    GroupsAdd(|db.groups|, |db.ads|, a => GroupOf(db, a), a => AdTotal(db, r, m, a), g => GroupTotal(db, r, m, g));
  }

  lemma CampaignsAddUp(db: Db, r: Range, m: Measure)
    requires ForeignKeys(db)
    ensures Sum(|db.campaigns|, c => CampaignTotal(db, r, m, c)) == Sum(|db.metrics|, i => Term(db, r, m, i))
  {
    GroupsAddUp(db, r, m);
    GroupsAdd(|db.campaigns|, |db.groups|, g => CampaignOf(db, g), g => GroupTotal(db, r, m, g), c => CampaignTotal(db, r, m, c));
  }

  lemma PlatformsAddUp(db: Db, r: Range, m: Measure)
    requires ForeignKeys(db)
    ensures Sum(3, p => PlatformTotal(db, r, m, PlatformAt(p))) == Sum(|db.metrics|, i => Term(db, r, m, i))
  {
    CampaignsAddUp(db, r, m);
    GroupsAdd(3, |db.campaigns|, c => PlatformOf(db, c), c => CampaignTotal(db, r, m, c), p => PlatformTotal(db, r, m, PlatformAt(p)));
  }

  /** The platform summary adds up to the overview. */
  lemma SummaryAddsUpToOverview(db: Db, r: Range, m: Measure)
    requires ForeignKeys(db)
    ensures SumRows(PlatformSummary(db, r), (row: PlatformRow) => In(row.totals, m)) == In(Overview(db, r), m)
  {
    PlatformsAddUp(db, r, m);
    forall p | 0 <= p < 3 ensures !PlatformHasData(db, r, p) ==> PlatformTotal(db, r, m, PlatformAt(p)) == 0 {
      NoDataNoPlatformTotal(db, r, m, PlatformAt(p));
    }
    RowsSum(3, p => PlatformHasData(db, r, p),
            p => PlatformRow(PlatformAt(p), AllTotals(x => PlatformTotal(db, r, x, PlatformAt(p)))),
            (row: PlatformRow) => In(row.totals, m), p => PlatformTotal(db, r, m, PlatformAt(p)));
  }

  /** What the platform summary shows for a platform: its line, or nothing when it has none. */
  function Shown(db: Db, r: Range, m: Measure, p: Platform): int {
    SumRows(PlatformSummary(db, r), (row: PlatformRow) => if row.platform == p then In(row.totals, m) else 0)
  }

  /** The summary shows each platform's joined total: a platform without a line has none. */
  lemma ShownIsTotal(db: Db, r: Range, m: Measure, p: Platform)
    ensures Shown(db, r, m, p) == PlatformTotal(db, r, m, p)
  {
    var total := (n: int) => if n == Index(p) then PlatformTotal(db, r, m, p) else 0;
    forall n | 0 <= n < 3 ensures PlatformAt(n) == p <==> n == Index(p) {
    }
    NoDataNoPlatformTotal(db, r, m, p);
    RowsSum(3, n => PlatformHasData(db, r, n),
            n => PlatformRow(PlatformAt(n), AllTotals(x => PlatformTotal(db, r, x, PlatformAt(n)))),
            (row: PlatformRow) => if row.platform == p then In(row.totals, m) else 0, total);
    SumPoint(3, Index(p), total);
  }

  /** The campaigns of a platform add up to its line of the summary, those of all platforms
      to the overview. */
  lemma CampaignsAddUpToPlatform(db: Db, r: Range, m: Measure, platform: Option<Platform>)
    requires ForeignKeys(db)
    ensures SumRows(GetCampaigns(db, r, platform), (row: CampaignRow) => In(row.totals, m))
         == if platform.None? then In(Overview(db, r), m) else Shown(db, r, m, platform.value)
  {
    if platform.Some? {
      ShownIsTotal(db, r, m, platform.value);
    }
    var total := (c: int) => if platform.None? || PlatformOf(db, c) == Index(platform.value) then CampaignTotal(db, r, m, c) else 0;
    forall c | 0 <= c < |db.campaigns| ensures !CampaignHasData(db, r, c) ==> CampaignTotal(db, r, m, c) == 0 {
      NoDataNoCampaignTotal(db, r, m, c);
    }
    RowsSum(|db.campaigns|,
            c => CampaignHasData(db, r, c) && (platform.None? || PlatformOf(db, c) == Index(platform.value)),
            c => CampaignRowOf(db, r, c),
            (row: CampaignRow) => In(row.totals, m), total);
    CampaignsAddUp(db, r, m);
    if platform.None? {
      SumSame(|db.campaigns|, total, c => CampaignTotal(db, r, m, c));
    } else {
      SumSame(|db.campaigns|, total, (c: int) => if PlatformOf(db, c) == Index(platform.value) then CampaignTotal(db, r, m, c) else 0);
      PlatformTotalIsSum(db, r, m, platform.value);
    }
  }

  lemma PlatformTotalIsSum(db: Db, r: Range, m: Measure, p: Platform)
    ensures PlatformTotal(db, r, m, p)
         == Sum(|db.campaigns|, (c: int) => if PlatformOf(db, c) == Index(p) then CampaignTotal(db, r, m, c) else 0)
  {
    PartIsSum(|db.campaigns|, c => PlatformOf(db, c), c => CampaignTotal(db, r, m, c), Index(p),
              (c: int) => if PlatformOf(db, c) == Index(p) then CampaignTotal(db, r, m, c) else 0);
  }

  // ---- Flat and nested joins agree ------------------------------------------------------------------

  lemma GroupTotalIsFlat(db: Db, r: Range, m: Measure, g: int)
    requires ForeignKeys(db)
    ensures GroupTotal(db, r, m, g) == Part(|db.metrics|, i => JoinedGroup(db, i), i => Term(db, r, m, i), g)
  {
    PartOfParts(|db.ads|, |db.metrics|, i => AdOf(db, i), a => GroupOf(db, a), i => JoinedGroup(db, i),
                i => Term(db, r, m, i), a => AdTotal(db, r, m, a), g);
  }

  lemma CampaignTotalIsFlat(db: Db, r: Range, m: Measure, c: int)
    requires ForeignKeys(db)
    ensures CampaignTotal(db, r, m, c) == Part(|db.metrics|, i => JoinedCampaign(db, i), i => Term(db, r, m, i), c)
  {
    forall g | 0 <= g < |db.groups|
      ensures GroupTotal(db, r, m, g) == Part(|db.metrics|, i => JoinedGroup(db, i), i => Term(db, r, m, i), g)
    {
      GroupTotalIsFlat(db, r, m, g);
    }
    PartOfParts(|db.groups|, |db.metrics|, i => JoinedGroup(db, i), g => CampaignOf(db, g), i => JoinedCampaign(db, i),
                i => Term(db, r, m, i), g => GroupTotal(db, r, m, g), c);
  }

  /** Joining from the campaigns down and from the metrics up gives one platform total. */
  lemma PlatformTotalIsFlat(db: Db, r: Range, m: Measure, p: Platform)
    requires ForeignKeys(db)
    ensures PlatformTotal(db, r, m, p) == Sum(|db.metrics|, i => PlatformTerm(db, r, m, Some(p), i))
  {
    forall c | 0 <= c < |db.campaigns|
      ensures CampaignTotal(db, r, m, c) == Part(|db.metrics|, i => JoinedCampaign(db, i), i => Term(db, r, m, i), c)
    {
      CampaignTotalIsFlat(db, r, m, c);
    }
    PartOfParts(|db.campaigns|, |db.metrics|, i => JoinedCampaign(db, i), c => PlatformOf(db, c), i => JoinedPlatform(db, i),
                i => Term(db, r, m, i), c => CampaignTotal(db, r, m, c), Index(p));
    PartIsSum(|db.metrics|, i => JoinedPlatform(db, i), i => Term(db, r, m, i), Index(p), i => PlatformTerm(db, r, m, Some(p), i));
  }

  lemma DaysAddUp(db: Db, r: Range, m: Measure, platform: Option<Platform>)
    ensures Sum(Days(r), d => NthDayTotal(db, r, m, platform, d)) == Sum(|db.metrics|, i => PlatformTerm(db, r, m, platform, i))
  {
    var since := (i: int) => DayOf(db, i) - r.start;
    forall d | 0 <= d < Days(r)
      ensures NthDayTotal(db, r, m, platform, d) == Part(|db.metrics|, since, i => PlatformTerm(db, r, m, platform, i), d)
    {
      PartRekey(|db.metrics|, i => DayOf(db, i), since, i => PlatformTerm(db, r, m, platform, i), r.start + d, d);
    }
    GroupsAdd(Days(r), |db.metrics|, since, i => PlatformTerm(db, r, m, platform, i), d => NthDayTotal(db, r, m, platform, d));
  }

  /** The daily series adds up to the overview, and the series of a platform to its line of
      the summary. */
  lemma DailyTotalsAddUp(db: Db, r: Range, m: Measure, platform: Option<Platform>)
    requires ForeignKeys(db)
    ensures SumRows(DailyTotals(db, r, platform), (row: DayRow) => In(row.totals, m))
         == if platform.None? then In(Overview(db, r), m) else Shown(db, r, m, platform.value)
  {
    if platform.Some? {
      ShownIsTotal(db, r, m, platform.value);
    }
    forall d | 0 <= d < Days(r) ensures !NthDayHasData(db, r, platform, d) ==> NthDayTotal(db, r, m, platform, d) == 0 {
      NoDataNoDayTotal(db, r, m, platform, r.start + d);
    }
    RowsSum(Days(r), d => NthDayHasData(db, r, platform, d), d => NthDayRow(db, r, platform, d),
            (row: DayRow) => In(row.totals, m), d => NthDayTotal(db, r, m, platform, d));
    DaysAddUp(db, r, m, platform);
    if platform.Some? {
      PlatformTotalIsFlat(db, r, m, platform.value);
    } else {
      SumSame(|db.metrics|, i => PlatformTerm(db, r, m, platform, i), i => Term(db, r, m, i));
    }
  }

  /** A campaign's line adds up from its groups, and from its ads. */
  lemma DetailAddsUp(db: Db, r: Range, m: Measure, c: int)
    requires ForeignKeys(db) && CampaignDetail(db, r, c).Some?
    ensures var detail := CampaignDetail(db, r, c).value;
            && SumRows(detail.adGroups, (row: GroupRow) => In(row.totals, m)) == CampaignTotal(db, r, m, c)
            && SumRows(detail.ads, (row: AdRow) => In(row.totals, m)) == CampaignTotal(db, r, m, c)
  {
    GroupLinesAddUp(db, r, m, c);
    AdLinesAddUp(db, r, m, c);
  }

  lemma GroupLinesAddUp(db: Db, r: Range, m: Measure, c: int)
    requires CampaignDetail(db, r, c).Some?
    ensures SumRows(CampaignDetail(db, r, c).value.adGroups, (row: GroupRow) => In(row.totals, m)) == CampaignTotal(db, r, m, c)
  {
    var total := (g: int) => if CampaignOf(db, g) == c then GroupTotal(db, r, m, g) else 0;
    forall g | 0 <= g < |db.groups| ensures !GroupHasData(db, r, g) ==> GroupTotal(db, r, m, g) == 0 {
      NoDataNoGroupTotal(db, r, m, g);
    }
    RowsSum(|db.groups|, g => CampaignOf(db, g) == c && GroupHasData(db, r, g), g => GroupRowOf(db, r, g),
            (row: GroupRow) => In(row.totals, m), total);
    PartIsSum(|db.groups|, g => CampaignOf(db, g), g => GroupTotal(db, r, m, g), c, total);
  }

  lemma AdLinesAddUp(db: Db, r: Range, m: Measure, c: int)
    requires ForeignKeys(db) && CampaignDetail(db, r, c).Some?
    ensures SumRows(CampaignDetail(db, r, c).value.ads, (row: AdRow) => In(row.totals, m)) == CampaignTotal(db, r, m, c)
  {
    var total := (a: int) => if AdCampaign(db, a) == c then AdTotal(db, r, m, a) else 0;
    forall a | 0 <= a < |db.ads| ensures !AdHasData(db, r, a) ==> AdTotal(db, r, m, a) == 0 {
      NoDataNoAdTotal(db, r, m, a);
    }
    RowsSum(|db.ads|, a => AdCampaign(db, a) == c && AdHasData(db, r, a), a => AdRowOf(db, r, a),
            (row: AdRow) => In(row.totals, m), total);
    PartIsSum(|db.ads|, a => AdCampaign(db, a), a => AdTotal(db, r, m, a), c, total);
    PartOfParts(|db.groups|, |db.ads|, a => GroupOf(db, a), g => CampaignOf(db, g), a => AdCampaign(db, a),
                a => AdTotal(db, r, m, a), g => GroupTotal(db, r, m, g), c);
  }

  /** The overview after a sync is the overview the dashboard's lines add up to: what a sync
      leaves meets the foreign keys every law above asks for. */
  lemma IntactMeetsForeignKeys(db: Db)
    requires Intact(db)
    ensures ForeignKeys(db)
  {
    forall i | 0 <= i < |db.metrics| ensures db.metrics[i].key.ad < |db.ads| {
      assert AllMetrics(db)[i] == db.metrics[i];
    }
  }
}
