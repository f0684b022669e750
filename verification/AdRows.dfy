/** From an adapter's row to the stored rows: which key of the flat dict every stored id, name
    and number comes from, on each platform, once a batch is synced. */
module AdRows {
  import opened Common
  import opened Tables
  import opened AdStore
  import opened AdSync
  import opened AdSyncLaws
  import opened AdSyncTheorems

  // ---- Reading a row ------------------------------------------------------------------------

  /** The row says `s` under `key`; a key it lacks reads as the empty string. */
  predicate Says(row: FlatRow, key: string, s: string) {
    if key in row.text then row.text[key] == s else s == ""
  }

  /** The row gives `n` under `key`; a missing or unreadable number is zero. */
  predicate Counts(row: FlatRow, key: string, n: int) {
    if key in row.numbers && row.numbers[key].Some? then row.numbers[key].value == n else n == 0
  }

  predicate InCampaign(platform: Platform, row: FlatRow, id: string) {
    Says(row, if platform.LinkedIn? then "campaign_group_id" else "campaign_id", id)
  }

  predicate InGroup(platform: Platform, row: FlatRow, id: string) {
    match platform
    case Meta => Says(row, "adset_id", id)
    case Google => Says(row, "ad_group_id", id)
    case LinkedIn => Says(row, "campaign_id", id)
  }

  predicate IsAd(platform: Platform, row: FlatRow, id: string) {
    Says(row, if platform.LinkedIn? then "creative_id" else "ad_id", id)
  }

  predicate NamesCampaign(platform: Platform, row: FlatRow, name: string) {
    Says(row, if platform.LinkedIn? then "campaign_group_name" else "campaign_name", name)
  }

  predicate NamesGroup(platform: Platform, row: FlatRow, name: string) {
    match platform
    case Meta => Says(row, "adset_name", name)
    case Google => Says(row, "ad_group_name", name)
    case LinkedIn => Says(row, "campaign_name", name)
  }

  predicate NamesAd(platform: Platform, row: FlatRow, name: string) {
    Says(row, if platform.LinkedIn? then "creative_name" else "ad_name", name)
  }

  /** The numbers of the row; the cost per click may come under its other name. */
  predicate Measures(row: FlatRow, v: Values) {
    && Counts(row, "impressions", v.impressions)
    && Counts(row, "reach", v.reach)
    && Counts(row, "clicks", v.clicks)
    && Counts(row, "spend", v.spend)
    && Counts(row, "conversions", v.conversions)
    && Counts(row, "ctr", v.ctr)
    && (if "cpc" in row.numbers then Counts(row, "cpc", v.cpc) else Counts(row, "average_cpc", v.cpc))
    && (if v.currency.None? then Says(row, "currency_code", "")
        else v.currency.value != "" && Says(row, "currency_code", v.currency.value))
  }

  predicate ReadsAs(b: Batch, text: string, day: int) {
    text != "" && b.parseDate(text) == Some(day)
  }

  /** `date_start` goes before `date`, even when it is empty. */
  predicate OfDay(b: Batch, row: FlatRow, day: int) {
    if "date_start" in row.text then ReadsAs(b, row.text["date_start"], day)
    else "date" in row.text && ReadsAs(b, row.text["date"], day)
  }

  lemma ReadingIds(platform: Platform, row: FlatRow, id: string)
    ensures var e := Normalise(platform, row);
            && (InCampaign(platform, row, id) <==> e.campaign == id)
            && (InGroup(platform, row, id) <==> e.group == id)
            && (IsAd(platform, row, id) <==> e.ad == id)
  {
  }

  lemma ReadingNames(platform: Platform, row: FlatRow)
    ensures var e := Normalise(platform, row);
            && NamesCampaign(platform, row, e.campaignName)
            && NamesGroup(platform, row, e.groupName)
            && NamesAd(platform, row, e.adName)
  {
  }

  lemma ReadingValues(platform: Platform, row: FlatRow)
    ensures Measures(row, Normalise(platform, row).values)
  {
  }

  lemma ReadingDate(b: Batch, row: FlatRow, day: int)
    ensures var e := Normalise(b.platform, row);
            OfDay(b, row, day) <==> e.date != "" && b.parseDate(e.date) == Some(day)
  {
  }

  // ---- Stored rows and the batch rows about them ----------------------------------------------

  predicate Completed(db: Db, b: Batch, rows: seq<FlatRow>) {
    Sync(db, b, NormaliseAll(b.platform, rows)).Going?
  }

  /** The tables after a completed sync. */
  function After(db: Db, b: Batch, rows: seq<FlatRow>): Db
    requires Completed(db, b, rows)
  {
    Sync(db, b, NormaliseAll(b.platform, rows)).db
  }

  /** The row names a campaign and an ad, as it must to be stored at all. */
  predicate Speaks(platform: Platform, row: FlatRow) {
    !InCampaign(platform, row, "") && !IsAd(platform, row, "")
  }

  /** The row is about the campaign stored at `i`. */
  predicate OfCampaign(db: Db, b: Batch, row: FlatRow, i: nat) {
    && i < |db.campaigns| && Speaks(b.platform, row)
    && db.campaigns[i].key.channel == b.channel && db.campaigns[i].key.platform == b.platform
    && InCampaign(b.platform, row, db.campaigns[i].key.externalId)
  }

  predicate OfGroup(db: Db, b: Batch, row: FlatRow, i: nat) {
    i < |db.groups| && OfCampaign(db, b, row, db.groups[i].key.campaign) && InGroup(b.platform, row, db.groups[i].key.externalId)
  }

  predicate OfAd(db: Db, b: Batch, row: FlatRow, i: nat) {
    i < |db.ads| && OfGroup(db, b, row, db.ads[i].key.group) && IsAd(b.platform, row, db.ads[i].key.externalId)
  }

  predicate OfMetric(db: Db, b: Batch, row: FlatRow, i: nat) {
    i < |db.metrics| && OfAd(db, b, row, db.metrics[i].key.ad) && OfDay(b, row, db.metrics[i].key.date)
  }

  // ---- In these terms a row is about what it writes to -----------------------------------------

  predicate WritesCampaign(db: Db, b: Batch, e: Entry, i: nat) {
    i < |db.campaigns| && Named(e) && CampaignWrite(b, e).key == db.campaigns[i].key
  }

  predicate WritesGroup(db: Db, b: Batch, e: Entry, i: nat) {
    i < |db.groups| && Named(e) && GroupWrite(db, b, e).key == db.groups[i].key
  }

  predicate WritesAd(db: Db, b: Batch, e: Entry, i: nat) {
    i < |db.ads| && Named(e) && AdWrite(db, b, e).key == db.ads[i].key
  }

  predicate WritesMetric(db: Db, b: Batch, e: Entry, i: nat) {
    i < |db.metrics| && Dated(b, e) && MetricWrite(db, b, e).key == db.metrics[i].key
  }

  lemma CampaignIsWritten(db: Db, b: Batch, row: FlatRow, i: nat)
    ensures OfCampaign(db, b, row, i) <==> WritesCampaign(db, b, Normalise(b.platform, row), i)
  {
    ReadingIds(b.platform, row, "");
    if i < |db.campaigns| {
      ReadingIds(b.platform, row, db.campaigns[i].key.externalId);
    }
  }

  lemma CampaignFound(db: Db, b: Batch, e: Entry, i: nat)
    requires Intact(db) && Found(db, b, e)
    ensures WritesCampaign(db, b, e, i) <==> Named(e) && CampaignOf(db, b, e) == Some(i)
  {
    if WritesCampaign(db, b, e, i) {
      FindUnique(db.campaigns, i);
    }
  }

  lemma GroupIsWritten(db: Db, b: Batch, row: FlatRow, i: nat)
    requires Intact(db) && Found(db, b, Normalise(b.platform, row))
    ensures OfGroup(db, b, row, i) <==> WritesGroup(db, b, Normalise(b.platform, row), i)
  {
    if i < |db.groups| {
      CampaignIsWritten(db, b, row, db.groups[i].key.campaign);
      CampaignFound(db, b, Normalise(b.platform, row), db.groups[i].key.campaign);
      ReadingIds(b.platform, row, db.groups[i].key.externalId);
    }
  }

  lemma GroupFound(db: Db, b: Batch, e: Entry, i: nat)
    requires Intact(db) && Found(db, b, e)
    ensures WritesGroup(db, b, e, i) <==> Named(e) && GroupOf(db, b, e) == Some(i)
  {
    if WritesGroup(db, b, e, i) {
      FindUnique(db.groups, i);
    }
  }

  lemma AdIsWritten(db: Db, b: Batch, row: FlatRow, i: nat)
    requires Intact(db) && Found(db, b, Normalise(b.platform, row))
    ensures OfAd(db, b, row, i) <==> WritesAd(db, b, Normalise(b.platform, row), i)
  {
    if i < |db.ads| {
      GroupIsWritten(db, b, row, db.ads[i].key.group);
      GroupFound(db, b, Normalise(b.platform, row), db.ads[i].key.group);
      ReadingIds(b.platform, row, db.ads[i].key.externalId);
    }
  }

  lemma AdFound(db: Db, b: Batch, e: Entry, i: nat)
    requires Intact(db) && Found(db, b, e)
    ensures WritesAd(db, b, e, i) <==> Named(e) && AdOf(db, b, e) == Some(i)
  {
    if WritesAd(db, b, e, i) {
      FindUnique(db.ads, i);
    }
  }

  lemma MetricIsWritten(db: Db, b: Batch, row: FlatRow, i: nat)
    requires Intact(db) && Found(db, b, Normalise(b.platform, row))
    ensures OfMetric(db, b, row, i) <==> WritesMetric(db, b, Normalise(b.platform, row), i)
  {
    if i < |db.metrics| {
      AdIsWritten(db, b, row, db.metrics[i].key.ad);
      AdFound(db, b, Normalise(b.platform, row), db.metrics[i].key.ad);
      ReadingDate(b, row, db.metrics[i].key.date);
    }
  }

  // ---- The last write to a key -------------------------------------------------------------------

  /** The writes of those elements that make one. */
  function WritesOf<E, K, V>(es: seq<E>, w: E -> Option<Write<K, V>>): seq<Write<K, V>> {
    if es == [] then []
    else
      var n := |es| - 1;
      WritesOf(es[..n], w) + (match w(es[n]) case Some(x) => [x] case None => [])
  }

  predicate WritesTo<E, K(==), V>(w: E -> Option<Write<K, V>>, e: E, k: K) {
    w(e).Some? && w(e).value.key == k
  }

  lemma {:induction false} LastWritten<E, K(!new), V(!new)>(es: seq<E>, w: E -> Option<Write<K, V>>, k: K, n: nat, before: Option<V>)
    requires n < |es| && WritesTo(w, es[n], k)
    requires forall j | n < j < |es| :: !WritesTo(w, es[j], k)
    ensures LastValue(WritesOf(es, w), k, before) == Some(w(es[n]).value.value)
  {
    var last := |es| - 1;
    LastValueOneMore(es, w, k, before);
    if n < last {
      assert es[..last][n] == es[n];
      LastWritten(es[..last], w, k, n, before);
    }
  }

  lemma LastValueOneMore<E, K(!new), V(!new)>(es: seq<E>, w: E -> Option<Write<K, V>>, k: K, before: Option<V>)
    requires es != []
    ensures var n := |es| - 1;
            LastValue(WritesOf(es, w), k, before)
            == if WritesTo(w, es[n], k) then Some(w(es[n]).value.value) else LastValue(WritesOf(es[..n], w), k, before)
  {
    var n := |es| - 1;
    var init := WritesOf(es[..n], w);
    match w(es[n])
    case Some(x) => assert (init + [x])[..|init|] == init;
    case None => assert init + [] == init;
  }

  lemma {:induction false} NeverWritten<E, K(!new), V(!new)>(es: seq<E>, w: E -> Option<Write<K, V>>, k: K, before: Option<V>)
    requires forall j | 0 <= j < |es| :: !WritesTo(w, es[j], k)
    ensures LastValue(WritesOf(es, w), k, before) == before
  {
    if es != [] {
      LastValueOneMore(es, w, k, before);
      NeverWritten(es[..|es| - 1], w, k, before);
    }
  }

  function CampaignStep(b: Batch): Entry -> Option<Write<CampaignKey, string>> {
    e => if Named(e) then Some(CampaignWrite(b, e)) else None
  }

  lemma {:induction false} CampaignSteps(b: Batch, es: seq<Entry>)
    ensures CampaignWrites(b, es) == WritesOf(es, CampaignStep(b))
  {
    if es != [] {
      CampaignSteps(b, es[..|es| - 1]);
    }
  }

  function GroupStep(db: Db, b: Batch): Entry -> Option<Write<GroupKey, string>> {
    e => if Named(e) then Some(GroupWrite(db, b, e)) else None
  }

  lemma {:induction false} GroupSteps(db: Db, b: Batch, es: seq<Entry>)
    ensures GroupWrites(db, b, es) == WritesOf(es, GroupStep(db, b))
  {
    if es != [] {
      GroupSteps(db, b, es[..|es| - 1]);
    }
  }

  function AdStep(db: Db, b: Batch): Entry -> Option<Write<AdKey, string>> {
    e => if Named(e) then Some(AdWrite(db, b, e)) else None
  }

  lemma {:induction false} AdSteps(db: Db, b: Batch, es: seq<Entry>)
    ensures AdWrites(db, b, es) == WritesOf(es, AdStep(db, b))
  {
    if es != [] {
      AdSteps(db, b, es[..|es| - 1]);
    }
  }

  function MetricStep(db: Db, b: Batch): Entry -> Option<Write<MetricKey, Values>> {
    e => if Dated(b, e) then Some(MetricWrite(db, b, e)) else None
  }

  lemma {:induction false} MetricSteps(db: Db, b: Batch, es: seq<Entry>)
    ensures MetricWrites(db, b, es) == WritesOf(es, MetricStep(db, b))
  {
    if es != [] {
      MetricSteps(db, b, es[..|es| - 1]);
    }
  }

  // ---- What a completed sync leaves ----------------------------------------------------------------

  /** The entries are the rows as read, and what they name is stored. */
  ghost predicate Reads(after: Db, b: Batch, rows: seq<FlatRow>, es: seq<Entry>) {
    && Intact(after) && |es| == |rows|
    && forall n | 0 <= n < |rows| :: es[n] == Normalise(b.platform, rows[n]) && Found(after, b, es[n])
  }

  /** What is known of the tables after a sync: they are what the rows wrote. */
  ghost predicate Holds(db: Db, after: Db, b: Batch, rows: seq<FlatRow>, es: seq<Entry>) {
    && Reads(after, b, rows, es) && Unique(after.metrics)
    && after.campaigns == Puts(db.campaigns, NEW_CAMPAIGN, CampaignWrites(b, es))
    && after.groups == Puts(db.groups, ActiveEntity, GroupWrites(after, b, es))
    && after.ads == Puts(db.ads, ActiveEntity, AdWrites(after, b, es))
    && after.metrics == Puts(AllMetrics(db), (), MetricWrites(after, b, es))
  }

  lemma AfterHolds(db: Db, b: Batch, rows: seq<FlatRow>)
    requires Intact(db) && Completed(db, b, rows)
    ensures Holds(db, After(db, b, rows), b, rows, NormaliseAll(b.platform, rows))
  {
    var es := NormaliseAll(b.platform, rows);
    SyncResult(db, b, es);
    SyncKeepsConstraints(db, b, es);
  }

  /** Of a table after some writes: its rows about `k`, and what new rows started with. */
  lemma {:induction false} NewRowsStart<K(!new), F(!new), V(!new)>(t: Table<K, F, V>, created: F, ws: seq<Write<K, V>>, i: nat)
    requires |t| <= i < |Puts(t, created, ws)|
    ensures Puts(t, created, ws)[i].kept == created
  {
    var n := |ws| - 1;
    var u := Puts(t, created, ws[..n]);
    PutFacts(u, ws[n].key, created, ws[n].value);
    if i < |u| {
      NewRowsStart(t, created, ws[..n], i);
    }
  }

  lemma StoredValue<K(!new), F(!new), V(!new)>(t: Table<K, F, V>, u: Table<K, F, V>, i: nat)
    requires Unique(u) && Grown(t, u) && i < |u|
    ensures ValueOf(u, u[i].key) == Some(u[i].value)
    ensures ValueOf(u, u[i].key) == ValueOf(t, u[i].key) ==> i < |t| && u[i] == t[i]
  {
    FindUnique(u, i);
    if Find(t, u[i].key).Some? {
      FindIsStable(t, u, u[i].key);
    }
  }

  predicate IsLastWrite<E, K(==), V>(es: seq<E>, w: E -> Option<Write<K, V>>, k: K, n: nat) {
    n < |es| && WritesTo(w, es[n], k) && forall j | n < j < |es| :: !WritesTo(w, es[j], k)
  }

  /** Row `i` of a table after the writes of `es`. */
  lemma WrittenRow<E, K(!new), F(!new), V(!new)>(t: Table<K, F, V>, u: Table<K, F, V>, created: F, es: seq<E>, w: E -> Option<Write<K, V>>, i: nat)
    requires u == Puts(t, created, WritesOf(es, w)) && Unique(u) && i < |u|
    ensures forall n: nat | IsLastWrite(es, w, u[i].key, n) :: u[i].value == w(es[n]).value.value
    ensures (forall j | 0 <= j < |es| :: !WritesTo(w, es[j], u[i].key)) ==> i < |t| && u[i] == t[i]
    ensures u[i].kept == if i < |t| then t[i].kept else created
  {
    var k := u[i].key;
    PutsGrow(t, created, WritesOf(es, w));
    PutsAreLastWrites(t, created, WritesOf(es, w), k);
    StoredValue(t, u, i);
    if i >= |t| {
      NewRowsStart(t, created, WritesOf(es, w), i);
    }
    forall n: nat | IsLastWrite(es, w, k, n) ensures u[i].value == w(es[n]).value.value {
      LastWritten(es, w, k, n, ValueOf(t, k));
    }
    if forall j | 0 <= j < |es| :: !WritesTo(w, es[j], k) {
      NeverWritten(es, w, k, ValueOf(t, k));
    }
  }

  predicate LastOfCampaign(db: Db, b: Batch, rows: seq<FlatRow>, i: nat, n: nat) {
    n < |rows| && OfCampaign(db, b, rows[n], i) && forall j | n < j < |rows| :: !OfCampaign(db, b, rows[j], i)
  }

  lemma CampaignStepsAt(after: Db, b: Batch, rows: seq<FlatRow>, es: seq<Entry>, i: nat)
    requires Reads(after, b, rows, es) && i < |after.campaigns|
    ensures forall n: nat | n < |rows| :: WritesTo(CampaignStep(b), es[n], after.campaigns[i].key) <==> OfCampaign(after, b, rows[n], i)
  {
    forall n: nat | n < |rows| ensures WritesTo(CampaignStep(b), es[n], after.campaigns[i].key) <==> OfCampaign(after, b, rows[n], i) {
      CampaignIsWritten(after, b, rows[n], i);
    }
  }

  lemma CampaignOfWrites(db: Db, after: Db, b: Batch, rows: seq<FlatRow>, es: seq<Entry>, i: nat)
    requires Holds(db, after, b, rows, es) && i < |after.campaigns|
    ensures && (forall n: nat | LastOfCampaign(after, b, rows, i, n) :: NamesCampaign(b.platform, rows[n], after.campaigns[i].value))
            && ((forall j | 0 <= j < |rows| :: !OfCampaign(after, b, rows[j], i)) ==> i < |db.campaigns| && after.campaigns[i] == db.campaigns[i])
            && after.campaigns[i].kept == if i < |db.campaigns| then db.campaigns[i].kept else CampaignMarks(ActiveEntity, None)
  {
    var w := CampaignStep(b);
    CampaignSteps(b, es);
    WrittenRow(db.campaigns, after.campaigns, NEW_CAMPAIGN, es, w, i);
    CampaignStepsAt(after, b, rows, es, i);
    forall n: nat | LastOfCampaign(after, b, rows, i, n) ensures NamesCampaign(b.platform, rows[n], after.campaigns[i].value) {
      assert IsLastWrite(es, w, after.campaigns[i].key, n);
      ReadingNames(b.platform, rows[n]);
    }
  }

  /** After a completed sync the name of a stored campaign is the one under the name key of
      the last row about it; a campaign no row is about is an old one, unchanged.  New ones
      start active and unlinked, old ones keep their status and link. */
  lemma CampaignVerdict(db: Db, b: Batch, rows: seq<FlatRow>, i: nat)
    requires Intact(db) && Completed(db, b, rows) && i < |After(db, b, rows).campaigns|
    ensures var after := After(db, b, rows);
            && (forall n: nat | LastOfCampaign(after, b, rows, i, n) :: NamesCampaign(b.platform, rows[n], after.campaigns[i].value))
            && ((forall j | 0 <= j < |rows| :: !OfCampaign(after, b, rows[j], i)) ==> i < |db.campaigns| && after.campaigns[i] == db.campaigns[i])
            && after.campaigns[i].kept == if i < |db.campaigns| then db.campaigns[i].kept else CampaignMarks(ActiveEntity, None)
  {
    AfterHolds(db, b, rows);
    CampaignOfWrites(db, After(db, b, rows), b, rows, NormaliseAll(b.platform, rows), i);
  }

  predicate LastOfGroup(db: Db, b: Batch, rows: seq<FlatRow>, i: nat, n: nat) {
    n < |rows| && OfGroup(db, b, rows[n], i) && forall j | n < j < |rows| :: !OfGroup(db, b, rows[j], i)
  }

  lemma GroupStepsAt(after: Db, b: Batch, rows: seq<FlatRow>, es: seq<Entry>, i: nat)
    requires Reads(after, b, rows, es) && i < |after.groups|
    ensures forall n: nat | n < |rows| :: WritesTo(GroupStep(after, b), es[n], after.groups[i].key) <==> OfGroup(after, b, rows[n], i)
  {
    forall n: nat | n < |rows| ensures WritesTo(GroupStep(after, b), es[n], after.groups[i].key) <==> OfGroup(after, b, rows[n], i) {
      GroupIsWritten(after, b, rows[n], i);
    }
  }

  lemma GroupOfWrites(db: Db, after: Db, b: Batch, rows: seq<FlatRow>, es: seq<Entry>, i: nat)
    requires Holds(db, after, b, rows, es) && i < |after.groups|
    ensures && (forall n: nat | LastOfGroup(after, b, rows, i, n) :: NamesGroup(b.platform, rows[n], after.groups[i].value))
            && ((forall j | 0 <= j < |rows| :: !OfGroup(after, b, rows[j], i)) ==> i < |db.groups| && after.groups[i] == db.groups[i])
            && after.groups[i].kept == if i < |db.groups| then db.groups[i].kept else ActiveEntity
  {
    var w := GroupStep(after, b);
    GroupSteps(after, b, es);
    WrittenRow(db.groups, after.groups, ActiveEntity, es, w, i);
    GroupStepsAt(after, b, rows, es, i);
    forall n: nat | LastOfGroup(after, b, rows, i, n) ensures NamesGroup(b.platform, rows[n], after.groups[i].value) {
      assert IsLastWrite(es, w, after.groups[i].key, n);
      ReadingNames(b.platform, rows[n]);
    }
  }

  /** The same for ad groups. */
  lemma GroupVerdict(db: Db, b: Batch, rows: seq<FlatRow>, i: nat)
    requires Intact(db) && Completed(db, b, rows) && i < |After(db, b, rows).groups|
    ensures var after := After(db, b, rows);
            && (forall n: nat | LastOfGroup(after, b, rows, i, n) :: NamesGroup(b.platform, rows[n], after.groups[i].value))
            && ((forall j | 0 <= j < |rows| :: !OfGroup(after, b, rows[j], i)) ==> i < |db.groups| && after.groups[i] == db.groups[i])
            && after.groups[i].kept == if i < |db.groups| then db.groups[i].kept else ActiveEntity
  {
    AfterHolds(db, b, rows);
    GroupOfWrites(db, After(db, b, rows), b, rows, NormaliseAll(b.platform, rows), i);
  }

  predicate LastOfAd(db: Db, b: Batch, rows: seq<FlatRow>, i: nat, n: nat) {
    n < |rows| && OfAd(db, b, rows[n], i) && forall j | n < j < |rows| :: !OfAd(db, b, rows[j], i)
  }

  lemma AdStepsAt(after: Db, b: Batch, rows: seq<FlatRow>, es: seq<Entry>, i: nat)
    requires Reads(after, b, rows, es) && i < |after.ads|
    ensures forall n: nat | n < |rows| :: WritesTo(AdStep(after, b), es[n], after.ads[i].key) <==> OfAd(after, b, rows[n], i)
  {
    forall n: nat | n < |rows| ensures WritesTo(AdStep(after, b), es[n], after.ads[i].key) <==> OfAd(after, b, rows[n], i) {
      AdIsWritten(after, b, rows[n], i);
    }
  }

  lemma AdOfWrites(db: Db, after: Db, b: Batch, rows: seq<FlatRow>, es: seq<Entry>, i: nat)
    requires Holds(db, after, b, rows, es) && i < |after.ads|
    ensures && (forall n: nat | LastOfAd(after, b, rows, i, n) :: NamesAd(b.platform, rows[n], after.ads[i].value))
            && ((forall j | 0 <= j < |rows| :: !OfAd(after, b, rows[j], i)) ==> i < |db.ads| && after.ads[i] == db.ads[i])
            && after.ads[i].kept == if i < |db.ads| then db.ads[i].kept else ActiveEntity
  {
    var w := AdStep(after, b);
    AdSteps(after, b, es);
    WrittenRow(db.ads, after.ads, ActiveEntity, es, w, i);
    AdStepsAt(after, b, rows, es, i);
    forall n: nat | LastOfAd(after, b, rows, i, n) ensures NamesAd(b.platform, rows[n], after.ads[i].value) {
      assert IsLastWrite(es, w, after.ads[i].key, n);
      ReadingNames(b.platform, rows[n]);
    }
  }

  /** The same for ads. */
  lemma AdVerdict(db: Db, b: Batch, rows: seq<FlatRow>, i: nat)
    requires Intact(db) && Completed(db, b, rows) && i < |After(db, b, rows).ads|
    ensures var after := After(db, b, rows);
            && (forall n: nat | LastOfAd(after, b, rows, i, n) :: NamesAd(b.platform, rows[n], after.ads[i].value))
            && ((forall j | 0 <= j < |rows| :: !OfAd(after, b, rows[j], i)) ==> i < |db.ads| && after.ads[i] == db.ads[i])
            && after.ads[i].kept == if i < |db.ads| then db.ads[i].kept else ActiveEntity
  {
    AfterHolds(db, b, rows);
    AdOfWrites(db, After(db, b, rows), b, rows, NormaliseAll(b.platform, rows), i);
  }

  predicate LastOfMetric(db: Db, b: Batch, rows: seq<FlatRow>, i: nat, n: nat) {
    n < |rows| && OfMetric(db, b, rows[n], i) && forall j | n < j < |rows| :: !OfMetric(db, b, rows[j], i)
  }

  lemma MetricStepsAt(after: Db, b: Batch, rows: seq<FlatRow>, es: seq<Entry>, i: nat)
    requires Reads(after, b, rows, es) && i < |after.metrics|
    ensures forall n: nat | n < |rows| :: WritesTo(MetricStep(after, b), es[n], after.metrics[i].key) <==> OfMetric(after, b, rows[n], i)
  {
    forall n: nat | n < |rows| ensures WritesTo(MetricStep(after, b), es[n], after.metrics[i].key) <==> OfMetric(after, b, rows[n], i) {
      MetricIsWritten(after, b, rows[n], i);
    }
  }

  lemma MetricOfWrites(db: Db, after: Db, b: Batch, rows: seq<FlatRow>, es: seq<Entry>, i: nat)
    requires Holds(db, after, b, rows, es) && i < |after.metrics|
    ensures && (forall n: nat | LastOfMetric(after, b, rows, i, n) :: Measures(rows[n], after.metrics[i].value))
            && ((forall j | 0 <= j < |rows| :: !OfMetric(after, b, rows[j], i)) ==> i < |AllMetrics(db)| && after.metrics[i] == AllMetrics(db)[i])
  {
    var w := MetricStep(after, b);
    MetricSteps(after, b, es);
    WrittenRow(AllMetrics(db), after.metrics, (), es, w, i);
    MetricStepsAt(after, b, rows, es, i);
    forall n: nat | LastOfMetric(after, b, rows, i, n) ensures Measures(rows[n], after.metrics[i].value) {
      assert IsLastWrite(es, w, after.metrics[i].key, n);
      ReadingValues(b.platform, rows[n]);
    }
  }

  /** After a completed sync the stored metric of an ad and day holds the numbers under their
      keys in the last row about that ad and day; any other stored metric is an old one. */
  lemma MetricVerdict(db: Db, b: Batch, rows: seq<FlatRow>, i: nat)
    requires Intact(db) && Completed(db, b, rows) && i < |After(db, b, rows).metrics|
    ensures var after := After(db, b, rows);
            && (forall n: nat | LastOfMetric(after, b, rows, i, n) :: Measures(rows[n], after.metrics[i].value))
            && ((forall j | 0 <= j < |rows| :: !OfMetric(after, b, rows[j], i)) ==> i < |AllMetrics(db)| && after.metrics[i] == AllMetrics(db)[i])
  {
    AfterHolds(db, b, rows);
    MetricOfWrites(db, After(db, b, rows), b, rows, NormaliseAll(b.platform, rows), i);
  }

  predicate HasDate(row: FlatRow) {
    if "date_start" in row.text then row.text["date_start"] != "" else "date" in row.text && row.text["date"] != ""
  }

  lemma ReadingHasDate(platform: Platform, row: FlatRow)
    ensures HasDate(row) <==> Normalise(platform, row).date != ""
  {
  }

  /** Every row that names a campaign and an ad is stored at all three levels, and its day too
      when it has one. */
  lemma RowsAreStored(db: Db, b: Batch, rows: seq<FlatRow>, n: nat)
    requires Intact(db) && Completed(db, b, rows) && n < |rows| && Speaks(b.platform, rows[n])
    ensures exists a: nat :: OfAd(After(db, b, rows), b, rows[n], a)
    ensures HasDate(rows[n]) ==> exists m: nat :: OfMetric(After(db, b, rows), b, rows[n], m)
  {
    var after, es := After(db, b, rows), NormaliseAll(b.platform, rows);
    AfterHolds(db, b, rows);
    AdStored(after, b, rows, es, n);
    if HasDate(rows[n]) {
      ReadingHasDate(b.platform, rows[n]);
      SyncSettles(db, b, es);
      MetricStored(after, b, rows, es, n);
    }
  }

  lemma AdStored(after: Db, b: Batch, rows: seq<FlatRow>, es: seq<Entry>, n: nat)
    requires Reads(after, b, rows, es) && n < |rows| && Speaks(b.platform, rows[n])
    ensures exists a: nat :: OfAd(after, b, rows[n], a)
    ensures Named(es[n])
  {
    ReadingIds(b.platform, rows[n], "");
    var a := AdOf(after, b, es[n]).value;
    AdIsWritten(after, b, rows[n], a);
  }

  lemma MetricStored(after: Db, b: Batch, rows: seq<FlatRow>, es: seq<Entry>, n: nat)
    requires Reads(after, b, rows, es) && n < |rows| && Dated(b, es[n])
    requires Find(after.metrics, MetricWrite(after, b, es[n]).key).Some?
    ensures exists m: nat :: OfMetric(after, b, rows[n], m)
  {
    var m := Find(after.metrics, MetricWrite(after, b, es[n]).key).value;
    MetricIsWritten(after, b, rows[n], m);
  }

  predicate IsMeasurement(platform: Platform, row: FlatRow) {
    Speaks(platform, row) && HasDate(row)
  }

  lemma ReadingMeasurement(platform: Platform, row: FlatRow)
    ensures IsMeasurement(platform, row) <==> Measured(Normalise(platform, row))
  {
    ReadingIds(platform, row, "");
    ReadingHasDate(platform, row);
  }

  function MeasuredAt(es: seq<Entry>): set<int> {
    set n | 0 <= n < |es| && Measured(es[n])
  }

  lemma {:induction false} CountOfMeasured(es: seq<Entry>)
    ensures CountMeasured(es) == |MeasuredAt(es)|
  {
    if es != [] {
      var n := |es| - 1;
      CountOfMeasured(es[..n]);
      assert n !in MeasuredAt(es[..n]) && MeasuredAt(es) == MeasuredAt(es[..n]) + (if Measured(es[n]) then {n} else {});
    }
  }

  lemma MeasuredRows(platform: Platform, rows: seq<FlatRow>)
    ensures MeasuredAt(NormaliseAll(platform, rows)) == set n | 0 <= n < |rows| && IsMeasurement(platform, rows[n])
  {
    forall n | 0 <= n < |rows| ensures Measured(NormaliseAll(platform, rows)[n]) <==> IsMeasurement(platform, rows[n]) {
      ReadingMeasurement(platform, rows[n]);
    }
  }

  /** The count returned is the number of rows with a campaign, an ad and a date. */
  lemma CountVerdict(db: Db, b: Batch, rows: seq<FlatRow>)
    requires Completed(db, b, rows)
    ensures Sync(db, b, NormaliseAll(b.platform, rows)).count == |set n | 0 <= n < |rows| && IsMeasurement(b.platform, rows[n])|
  {
    SyncResult(db, b, NormaliseAll(b.platform, rows));
    CountOfMeasured(NormaliseAll(b.platform, rows));
    MeasuredRows(b.platform, rows);
  }
}
