/** Upserting the ad hierarchy and its daily metrics (app/services/ad_sync_service.py).

    `SyncRows` is the plain reading: look every campaign, group and ad up afresh for each row.
    The class keeps the three in-memory caches of the service and is proved to do the same. */
module AdSync {
  import opened Common
  import opened Tables
  import opened AdStore

  // ---- Adapter rows -----------------------------------------------------------------------

  /** An adapter's flat dict: its values as text, and as numbers where they parse. */
  datatype FlatRow = FlatRow(text: map<string, string>, numbers: map<string, Option<int>>)

  datatype FieldMap = FieldMap(
    campaignId: string, campaignName: string, groupId: string, groupName: string, adId: string, adName: string)

  function FieldsOf(platform: Platform): FieldMap {
    match platform
    case Meta => FieldMap("campaign_id", "campaign_name", "adset_id", "adset_name", "ad_id", "ad_name")
    case Google => FieldMap("campaign_id", "campaign_name", "ad_group_id", "ad_group_name", "ad_id", "ad_name")
    case LinkedIn =>
      FieldMap("campaign_group_id", "campaign_group_name", "campaign_id", "campaign_name", "creative_id", "creative_name")
  }

  function Text(row: FlatRow, field: string, default: string): string {
    if field in row.text then row.text[field] else default
  }

  /** Bad or missing numbers count as zero. */
  function SafeDecimal(row: FlatRow, field: string): int {
    if field in row.numbers then
      match row.numbers[field]
      case Some(n) => n
      case None => 0
    else 0
  }

  /** A row in the normalised hierarchy's terms. */
  datatype Entry = Entry(
    campaign: string, campaignName: string, group: string, groupName: string, ad: string, adName: string,
    date: string, values: Values)

  function Normalise(platform: Platform, row: FlatRow): Entry {
    var f := FieldsOf(platform);
    var currency := Text(row, "currency_code", "");
    Entry(
      Text(row, f.campaignId, ""), Text(row, f.campaignName, ""),
      Text(row, f.groupId, ""), Text(row, f.groupName, ""),
      Text(row, f.adId, ""), Text(row, f.adName, ""),
      Text(row, "date_start", Text(row, "date", "")),
      Values(
        SafeDecimal(row, "impressions"), SafeDecimal(row, "reach"), SafeDecimal(row, "clicks"),
        SafeDecimal(row, "spend"), SafeDecimal(row, "conversions"), SafeDecimal(row, "ctr"),
        SafeDecimal(row, if "cpc" in row.numbers then "cpc" else "average_cpc"),
        if currency == "" then None else Some(currency)))
  }

  predicate Named(e: Entry) {
    e.campaign != "" && e.ad != ""
  }

  predicate Measured(e: Entry) {
    Named(e) && e.date != ""
  }

  // ---- The plain reading ------------------------------------------------------------------

  /** Which account a batch is for, and how dates are read. */
  datatype Batch = Batch(channel: nat, platform: Platform, parseDate: string -> Option<int>)

  datatype Progress =
    | Going(db: Db, count: nat)
    | Conflict                     // a flush broke the uniqueness of metrics
    | BadDate(db: Db, count: nat)  // a date did not parse

  /** Writing out the session: the pending metrics become visible, unless two rows share a key. */
  function Flushed(db: Db): Option<Db> {
    if HasRepeats(AllMetrics(db)) then None else Some(db.(metrics := AllMetrics(db), pending := []))
  }

  predicate HasRepeats(t: Metrics) {
    exists i, j :: 0 <= i < j < |t| && t[i].key == t[j].key
  }

  /** A new row is flushed to obtain its id. */
  function FlushIf(created: bool, db: Db): Option<Db> {
    if created then Flushed(db) else Some(db)
  }

  function WithCampaign(db: Db, k: CampaignKey, name: string): Option<Db> {
    FlushIf(Find(db.campaigns, k).None?, db.(campaigns := Put(db.campaigns, k, NEW_CAMPAIGN, name)))
  }

  function WithGroup(db: Db, k: GroupKey, name: string): Option<Db> {
    FlushIf(Find(db.groups, k).None?, db.(groups := Put(db.groups, k, ActiveEntity, name)))
  }

  function WithAd(db: Db, k: AdKey, name: string): Option<Db> {
    FlushIf(Find(db.ads, k).None?, db.(ads := Put(db.ads, k, ActiveEntity, name)))
  }

  function WithMetric(db: Db, k: MetricKey, values: Values): Db {
    match Find(db.metrics, k)
    case Some(i) => db.(metrics := db.metrics[i := db.metrics[i].(value := values)])
    case None => db.(pending := db.pending + [Row(k, (), values)])
  }

  function CampaignKeyOf(b: Batch, e: Entry): CampaignKey {
    CampaignKey(b.channel, b.platform, e.campaign)
  }

  /** The hierarchy part of one row: the tables with campaign, group and ad upserted. */
  function WithAncestors(db: Db, b: Batch, e: Entry): Option<Db> {
    match WithCampaign(db, CampaignKeyOf(b, e), e.campaignName)
    case None => None
    case Some(db1) =>
      match Find(db1.campaigns, CampaignKeyOf(b, e))
      case None => None
      case Some(c) => WithGroupAndAd(db1, c, e)
  }

  function WithGroupAndAd(db: Db, c: nat, e: Entry): Option<Db> {
    match WithGroup(db, GroupKey(c, e.group), e.groupName)
    case None => None
    case Some(db') =>
      match Find(db'.groups, GroupKey(c, e.group))
      case None => None
      case Some(g) => WithAd(db', AdKey(g, e.ad), e.adName)
  }

  function CampaignOf(db: Db, b: Batch, e: Entry): Option<nat> {
    Find(db.campaigns, CampaignKeyOf(b, e))
  }

  function GroupOf(db: Db, b: Batch, e: Entry): Option<nat> {
    match CampaignOf(db, b, e)
    case None => None
    case Some(c) => Find(db.groups, GroupKey(c, e.group))
  }

  function AdOf(db: Db, b: Batch, e: Entry): Option<nat> {
    match GroupOf(db, b, e)
    case None => None
    case Some(g) => Find(db.ads, AdKey(g, e.ad))
  }

  function SyncRow(db: Db, count: nat, b: Batch, e: Entry): Progress {
    if !Named(e) then Going(db, count)
    else
      match WithAncestors(db, b, e)
      case None => Conflict
      case Some(db') =>
        if e.date == "" then Going(db', count)
        else
          match b.parseDate(e.date)
          case None => BadDate(db', count)
          case Some(day) =>
            match AdOf(db', b, e)
            case None => Conflict
            case Some(a) => Going(WithMetric(db', MetricKey(a, day), e.values), count + 1)
  }

  function SyncRows(db: Db, b: Batch, es: seq<Entry>): Progress {
    if es == [] then Going(db, 0)
    else
      match SyncRows(db, b, es[..|es| - 1])
      case Going(mid, count) => SyncRow(mid, count, b, es[|es| - 1])
      case other => other
  }

  /** A whole batch, with the closing flush. */
  function Sync(db: Db, b: Batch, es: seq<Entry>): Progress {
    match SyncRows(db, b, es)
    case Going(mid, count) => (
      match Flushed(mid)
      case None => Conflict
      case Some(flushed) => Going(flushed, count)
    )
    case other => other
  }

  // ---- The caches ---------------------------------------------------------------------------

  /** The campaign cache is loaded up front: it knows every campaign of the account. */
  ghost predicate CampaignCacheAgrees(campaigns: Campaigns, b: Batch, cache: map<string, nat>) {
    forall ext: string ::
      Find(campaigns, CampaignKey(b.channel, b.platform, ext)) == (if ext in cache then Some(cache[ext]) else None)
  }

  /** The other caches know some rows: each entry is what the SELECT would return. */
  ghost predicate CacheAgrees<K(!new), F(!new), V(!new)>(t: Table<K, F, V>, cache: map<K, nat>) {
    forall k | k in cache :: Find(t, k) == Some(cache[k])
  }

  datatype Caches = Caches(campaigns: map<string, nat>, groups: map<GroupKey, nat>, ads: map<AdKey, nat>)

  ghost predicate CachesAgree(db: Db, b: Batch, caches: Caches) {
    && CampaignCacheAgrees(db.campaigns, b, caches.campaigns)
    && CacheAgrees(db.groups, caches.groups)
    && CacheAgrees(db.ads, caches.ads)
  }

  lemma PutKeepsCache<K(!new), F(!new), V(!new)>(t: Table<K, F, V>, cache: map<K, nat>, k: K, created: F, v: V)
    requires CacheAgrees(t, cache)
    ensures var u := Put(t, k, created, v);
            Find(u, k).Some? && CacheAgrees(u, cache[k := Find(u, k).value])
  {
    var u := Put(t, k, created, v);
    PutFacts(t, k, created, v);
    forall k' | k' in cache ensures Find(u, k') == Some(cache[k']) {
      FindIsStable(t, u, k');
    }
  }

  lemma PutKeepsCampaignCache(t: Campaigns, b: Batch, cache: map<string, nat>, ext: string, name: string)
    requires CampaignCacheAgrees(t, b, cache)
    ensures var k := CampaignKey(b.channel, b.platform, ext);
            var u := Put(t, k, NEW_CAMPAIGN, name);
            Find(u, k).Some? && CampaignCacheAgrees(u, b, cache[ext := Find(u, k).value])
  {
    var k := CampaignKey(b.channel, b.platform, ext);
    var u := Put(t, k, NEW_CAMPAIGN, name);
    PutFacts(t, k, NEW_CAMPAIGN, name);
    var cache' := cache[ext := Find(u, k).value];
    forall x: string
      ensures Find(u, CampaignKey(b.channel, b.platform, x)) == (if x in cache' then Some(cache'[x]) else None)
    {
      var k' := CampaignKey(b.channel, b.platform, x);
      if x != ext {
        if Find(t, k').Some? {
          FindIsStable(t, u, k');
        }
      }
    }
  }

  class AdSyncService {
    var campaigns: Campaigns
    var groups: Groups
    var ads: Ads
    var metrics: Metrics
    var pending: Metrics

    function State(): Db
      reads this
    {
      Db(campaigns, groups, ads, metrics, pending)
    }

    method Flush() returns (ok: bool)
      modifies this`metrics, this`pending
      ensures ok <==> Flushed(old(State())).Some?
      ensures ok ==> State() == Flushed(old(State())).value
    {
      if HasRepeats(metrics + pending) {
        return false;
      }
      metrics := metrics + pending;
      pending := [];
      ok := true;
    }

    method LoadCampaignCache(b: Batch) returns (cache: map<string, nat>)
      requires Unique(campaigns)
      ensures CampaignCacheAgrees(campaigns, b, cache)
    {
      cache := map[];
      var i := 0;
      while i < |campaigns|
        invariant i <= |campaigns|
        invariant forall ext | ext in cache :: cache[ext] < i && campaigns[cache[ext]].key == CampaignKey(b.channel, b.platform, ext)
        invariant forall k | 0 <= k < i && campaigns[k].key.channel == b.channel && campaigns[k].key.platform == b.platform ::
                    campaigns[k].key.externalId in cache
      {
        var key := campaigns[i].key;
        if key.channel == b.channel && key.platform == b.platform {
          cache := cache[key.externalId := i];
        }
        i := i + 1;
      }
      forall ext: string
        ensures Find(campaigns, CampaignKey(b.channel, b.platform, ext)) == (if ext in cache then Some(cache[ext]) else None)
      {
        if ext in cache {
          FindUnique(campaigns, cache[ext]);
        }
      }
    }

    method UpsertCampaign(b: Batch, e: Entry, cache: map<string, nat>) returns (ok: bool, c: nat, cache': map<string, nat>)
      requires CampaignCacheAgrees(campaigns, b, cache)
      modifies this`campaigns, this`metrics, this`pending
      ensures ok <==> WithCampaign(old(State()), CampaignKeyOf(b, e), e.campaignName).Some?
      ensures ok ==> Some(State()) == WithCampaign(old(State()), CampaignKeyOf(b, e), e.campaignName)
      ensures ok ==> Find(campaigns, CampaignKeyOf(b, e)) == Some(c) && CampaignCacheAgrees(campaigns, b, cache')
    {
      var key := CampaignKeyOf(b, e);
      PutKeepsCampaignCache(campaigns, b, cache, e.campaign, e.campaignName);
      PutFacts(campaigns, key, NEW_CAMPAIGN, e.campaignName);
      cache' := cache;
      ok := true;
      if e.campaign !in cache {
        c := |campaigns|;
        campaigns := campaigns + [Row(key, NEW_CAMPAIGN, e.campaignName)];
        ok := Flush();
        cache' := cache[e.campaign := c];
      } else {
        c := cache[e.campaign];
        assert cache[e.campaign := c] == cache;
        if campaigns[c].value != e.campaignName {
          campaigns := campaigns[c := campaigns[c].(value := e.campaignName)];
        } else {
          assert campaigns[c := campaigns[c].(value := e.campaignName)] == campaigns;
        }
      }
    }

    method UpsertGroup(c: nat, e: Entry, cache: map<GroupKey, nat>) returns (ok: bool, g: nat, cache': map<GroupKey, nat>)
      requires CacheAgrees(groups, cache)
      modifies this`groups, this`metrics, this`pending
      ensures ok <==> WithGroup(old(State()), GroupKey(c, e.group), e.groupName).Some?
      ensures ok ==> Some(State()) == WithGroup(old(State()), GroupKey(c, e.group), e.groupName)
      ensures ok ==> Find(groups, GroupKey(c, e.group)) == Some(g) && CacheAgrees(groups, cache')
    {
      var key := GroupKey(c, e.group);
      PutKeepsCache(groups, cache, key, ActiveEntity, e.groupName);
      PutFacts(groups, key, ActiveEntity, e.groupName);
      ok := true;
      var found := if key in cache then Some(cache[key]) else None;
      if found.None? {
        found := Find(groups, key);
      }
      if found.None? {
        g := |groups|;
        groups := groups + [Row(key, ActiveEntity, e.groupName)];
        ok := Flush();
      } else {
        g := found.value;
        if groups[g].value != e.groupName {
          groups := groups[g := groups[g].(value := e.groupName)];
        } else {
          assert groups[g := groups[g].(value := e.groupName)] == groups;
        }
      }
      cache' := cache[key := g];
    }

    method UpsertAd(g: nat, e: Entry, cache: map<AdKey, nat>) returns (ok: bool, a: nat, cache': map<AdKey, nat>)
      requires CacheAgrees(ads, cache)
      modifies this`ads, this`metrics, this`pending
      ensures ok <==> WithAd(old(State()), AdKey(g, e.ad), e.adName).Some?
      ensures ok ==> Some(State()) == WithAd(old(State()), AdKey(g, e.ad), e.adName)
      ensures ok ==> Find(ads, AdKey(g, e.ad)) == Some(a) && CacheAgrees(ads, cache')
    {
      var key := AdKey(g, e.ad);
      PutKeepsCache(ads, cache, key, ActiveEntity, e.adName);
      PutFacts(ads, key, ActiveEntity, e.adName);
      ok := true;
      var found := if key in cache then Some(cache[key]) else None;
      if found.None? {
        found := Find(ads, key);
      }
      if found.None? {
        a := |ads|;
        ads := ads + [Row(key, ActiveEntity, e.adName)];
        ok := Flush();
      } else {
        a := found.value;
        if ads[a].value != e.adName {
          ads := ads[a := ads[a].(value := e.adName)];
        } else {
          assert ads[a := ads[a].(value := e.adName)] == ads;
        }
      }
      cache' := cache[key := a];
    }

    method UpsertMetric(a: nat, day: int, values: Values)
      modifies this`metrics, this`pending
      ensures State() == WithMetric(old(State()), MetricKey(a, day), values)
    {
      var found := Find(metrics, MetricKey(a, day));
      if found.None? {
        pending := pending + [Row(MetricKey(a, day), (), values)];
      } else {
        metrics := metrics[found.value := metrics[found.value].(value := values)];
      }
    }

    method UpsertGroupAndAd(c: nat, e: Entry, groupCache: map<GroupKey, nat>, adCache: map<AdKey, nat>)
      returns (ok: bool, a: nat, groupCache': map<GroupKey, nat>, adCache': map<AdKey, nat>)
      requires CacheAgrees(groups, groupCache) && CacheAgrees(ads, adCache)
      modifies this`groups, this`ads, this`metrics, this`pending
      ensures ok <==> WithGroupAndAd(old(State()), c, e).Some?
      ensures ok ==> Some(State()) == WithGroupAndAd(old(State()), c, e)
      ensures ok ==> CacheAgrees(groups, groupCache') && CacheAgrees(ads, adCache')
      ensures ok ==> Find(groups, GroupKey(c, e.group)).Some?
                     && Find(ads, AdKey(Find(groups, GroupKey(c, e.group)).value, e.ad)) == Some(a)
    {
      a, adCache' := 0, adCache;
      var g;
      ok, g, groupCache' := UpsertGroup(c, e, groupCache);
      if ok {
        ok, a, adCache' := UpsertAd(g, e, adCache);
      }
    }

    method UpsertAncestors(b: Batch, e: Entry, caches: Caches) returns (ok: bool, a: nat, caches': Caches)
      requires CachesAgree(State(), b, caches)
      modifies this
      ensures ok <==> WithAncestors(old(State()), b, e).Some?
      ensures ok ==> Some(State()) == WithAncestors(old(State()), b, e)
      ensures ok ==> AdOf(State(), b, e) == Some(a) && CachesAgree(State(), b, caches')
    {
      caches' := caches;
      a := 0;
      var c, known;
      ok, c, known := UpsertCampaign(b, e, caches.campaigns);
      if ok {
        var groupCache, adCache;
        ok, a, groupCache, adCache := UpsertGroupAndAd(c, e, caches.groups, caches.ads);
        caches' := Caches(known, groupCache, adCache);
      }
    }

    method SyncOne(b: Batch, e: Entry, upserted: nat, caches: Caches) returns (r: Progress, caches': Caches)
      requires CachesAgree(State(), b, caches)
      modifies this
      ensures r == SyncRow(old(State()), upserted, b, e)
      ensures !r.Conflict? ==> r.db == State()
      ensures r.Going? ==> CachesAgree(State(), b, caches')
    {
      if e.campaign == "" || e.ad == "" {
        return Going(State(), upserted), caches;
      }
      var ok, a;
      ok, a, caches' := UpsertAncestors(b, e, caches);
      if !ok {
        return Conflict, caches';
      }
      if e.date == "" {
        return Going(State(), upserted), caches';
      }
      var day := b.parseDate(e.date);
      if day.None? {
        return BadDate(State(), upserted), caches';
      }
      UpsertMetric(a, day.value, e.values);
      r := Going(State(), upserted + 1);
    }

    method SyncPlatformRows(b: Batch, rows: seq<FlatRow>) returns (r: Progress)
      requires Unique(campaigns)
      modifies this
      ensures r == Sync(old(State()), b, NormaliseAll(b.platform, rows))
      ensures !r.Conflict? ==> r.db == State()
    {
      ghost var start, es := State(), NormaliseAll(b.platform, rows);
      var known := LoadCampaignCache(b);
      var caches := Caches(known, map[], map[]);
      var upserted := 0;
      for n := 0 to |rows|
        invariant SyncRows(start, b, es[..n]) == Going(State(), upserted)
        invariant CachesAgree(State(), b, caches)
      {
        RowDecides(start, b, es, n, State(), upserted);
        r, caches := SyncOne(b, Normalise(b.platform, rows[n]), upserted, caches);
        if !r.Going? {
          return;
        }
        upserted := r.count;
      }
      assert es[..|rows|] == es;
      var ok := Flush();
      r := if ok then Going(State(), upserted) else Conflict;
    }
  }

  function NormaliseAll(platform: Platform, rows: seq<FlatRow>): (es: seq<Entry>)
    ensures |es| == |rows|
  {
    seq(|rows|, i requires 0 <= i < |rows| => Normalise(platform, rows[i]))
  }

  /** Row `n` carries the batch on from the state before it, or stops the batch. */
  lemma RowDecides(db: Db, b: Batch, es: seq<Entry>, n: nat, mid: Db, count: nat)
    requires n < |es| && SyncRows(db, b, es[..n]) == Going(mid, count)
    ensures SyncRows(db, b, es[..n + 1]) == SyncRow(mid, count, b, es[n])
    ensures !SyncRow(mid, count, b, es[n]).Going? ==> Sync(db, b, es) == SyncRow(mid, count, b, es[n])
  {
    assert es[..n + 1][..n] == es[..n];
    StoppedStaysStopped(db, b, es, n + 1);
  }

  /** A batch that stopped stays stopped, for the same reason. */
  lemma {:induction false} StoppedStaysStopped(db: Db, b: Batch, es: seq<Entry>, n: nat)
    requires n <= |es|
    ensures !SyncRows(db, b, es[..n]).Going? ==> Sync(db, b, es) == SyncRows(db, b, es[..n])
    ensures !SyncRows(db, b, es[..n]).Going? ==> SyncRows(db, b, es) == SyncRows(db, b, es[..n])
    decreases |es|
  {
    if n == |es| {
      assert es[..n] == es;
    } else {
      var init := es[..|es| - 1];
      StoppedStaysStopped(db, b, init, n);
      assert init[..n] == es[..n];
    }
  }
}
