/** What a sync does to the tables as a whole: last row wins, syncing twice is syncing once,
    constraints and foreign accounts are kept. */
module AdSyncLaws {
  import opened Common
  import opened Tables
  import opened AdStore
  import opened AdSync

  // ---- One row --------------------------------------------------------------------------

  function Id(o: Option<nat>): nat {
    match o
    case Some(i) => i
    case None => 0
  }

  function CampaignWrite(b: Batch, e: Entry): Write<CampaignKey, string> {
    Write(CampaignKeyOf(b, e), e.campaignName)
  }

  function GroupWrite(db: Db, b: Batch, e: Entry): Write<GroupKey, string> {
    Write(GroupKey(Id(CampaignOf(db, b, e)), e.group), e.groupName)
  }

  function AdWrite(db: Db, b: Batch, e: Entry): Write<AdKey, string> {
    Write(AdKey(Id(GroupOf(db, b, e)), e.ad), e.adName)
  }

  function MetricWrite(db: Db, b: Batch, e: Entry): Write<MetricKey, Values>
    requires b.parseDate(e.date).Some?
  {
    Write(MetricKey(Id(AdOf(db, b, e)), b.parseDate(e.date).value), e.values)
  }

  function PutWrite<K(==), F, V>(t: Table<K, F, V>, created: F, w: Write<K, V>): Table<K, F, V> {
    Put(t, w.key, created, w.value)
  }

  lemma CampaignLevel(db: Db, k: CampaignKey, name: string)
    requires WithCampaign(db, k, name).Some?
    ensures var db' := WithCampaign(db, k, name).value;
            && db'.campaigns == Put(db.campaigns, k, NEW_CAMPAIGN, name) && Find(db'.campaigns, k).Some?
            && db'.groups == db.groups && db'.ads == db.ads && AllMetrics(db') == AllMetrics(db)
  {
    PutFacts(db.campaigns, k, NEW_CAMPAIGN, name);
  }

  lemma GroupLevel(db: Db, k: GroupKey, name: string)
    requires WithGroup(db, k, name).Some?
    ensures var db' := WithGroup(db, k, name).value;
            && db'.groups == Put(db.groups, k, ActiveEntity, name) && Find(db'.groups, k).Some?
            && db'.campaigns == db.campaigns && db'.ads == db.ads && AllMetrics(db') == AllMetrics(db)
  {
    PutFacts(db.groups, k, ActiveEntity, name);
  }

  lemma AdLevel(db: Db, k: AdKey, name: string)
    requires WithAd(db, k, name).Some?
    ensures var db' := WithAd(db, k, name).value;
            && db'.ads == Put(db.ads, k, ActiveEntity, name) && Find(db'.ads, k).Some?
            && db'.campaigns == db.campaigns && db'.groups == db.groups && AllMetrics(db') == AllMetrics(db)
  {
    PutFacts(db.ads, k, ActiveEntity, name);
  }

  /** The hierarchy part of a row is one upsert per level, with ids read off the result. */
  lemma AncestorsArePuts(db: Db, b: Batch, e: Entry)
    requires WithAncestors(db, b, e).Some?
    ensures var db' := WithAncestors(db, b, e).value;
            && AdOf(db', b, e).Some?
            && db'.campaigns == PutWrite(db.campaigns, NEW_CAMPAIGN, CampaignWrite(b, e))
            && db'.groups == PutWrite(db.groups, ActiveEntity, GroupWrite(db', b, e))
            && db'.ads == PutWrite(db.ads, ActiveEntity, AdWrite(db', b, e))
            && AllMetrics(db') == AllMetrics(db)
  {
    var k := CampaignKeyOf(b, e);
    CampaignLevel(db, k, e.campaignName);
    var db1 := WithCampaign(db, k, e.campaignName).value;
    var c := Find(db1.campaigns, k).value;
    GroupLevel(db1, GroupKey(c, e.group), e.groupName);
    var db2 := WithGroup(db1, GroupKey(c, e.group), e.groupName).value;
    var g := Find(db2.groups, GroupKey(c, e.group)).value;
    AdLevel(db2, AdKey(g, e.ad), e.adName);
  }

  /** A metric write is an upsert too, unless it repeats a row still pending. */
  lemma MetricIsPut(db: Db, k: MetricKey, v: Values)
    ensures var all, all' := AllMetrics(db), AllMetrics(WithMetric(db, k, v));
            if Find(db.metrics, k).None? && Find(db.pending, k).Some? then all' == all + [Row(k, (), v)] && HasRepeats(all')
            else all' == Put(all, k, (), v)
  {
    var all, all' := AllMetrics(db), AllMetrics(WithMetric(db, k, v));
    if Find(db.metrics, k).Some? {
      FindIsStable(db.metrics, all, k);
    } else {
      assert all' == all + [Row(k, (), v)];
      if Find(db.pending, k).Some? {
        var i := |db.metrics| + Find(db.pending, k).value;
        assert all'[i].key == all'[|all|].key;
      }
    }
  }

  lemma MetricGrows(db: Db, k: MetricKey, v: Values)
    ensures Grown(AllMetrics(db), AllMetrics(WithMetric(db, k, v)))
    ensures Find(AllMetrics(WithMetric(db, k, v)), k).Some?
  {
    MetricIsPut(db, k, v);
    var all, all' := AllMetrics(db), AllMetrics(WithMetric(db, k, v));
    PutFacts(all, k, (), v);
    if all' == all + [Row(k, (), v)] {
      assert all'[|all|].key == k;
    }
  }

  // ---- Whole batches ----------------------------------------------------------------------

  ghost predicate AllGrown(db: Db, db': Db) {
    && Grown(db.campaigns, db'.campaigns) && Grown(db.groups, db'.groups) && Grown(db.ads, db'.ads)
    && Grown(AllMetrics(db), AllMetrics(db'))
  }

  /** Ids once assigned are found again in every later state. */
  lemma LookupsAreStable(db: Db, db': Db, b: Batch, e: Entry)
    requires AllGrown(db, db') && AdOf(db, b, e).Some?
    ensures CampaignOf(db', b, e) == CampaignOf(db, b, e)
    ensures GroupOf(db', b, e) == GroupOf(db, b, e)
    ensures AdOf(db', b, e) == AdOf(db, b, e)
  {
    var c, g := CampaignOf(db, b, e).value, GroupOf(db, b, e).value;
    FindIsStable(db.campaigns, db'.campaigns, CampaignKeyOf(b, e));
    FindIsStable(db.groups, db'.groups, GroupKey(c, e.group));
    FindIsStable(db.ads, db'.ads, AdKey(g, e.ad));
  }

  predicate Dated(b: Batch, e: Entry) {
    Measured(e) && b.parseDate(e.date).Some?
  }

  function CampaignWrites(b: Batch, es: seq<Entry>): seq<Write<CampaignKey, string>> {
    if es == [] then [] else
    var n := |es| - 1;
    if Named(es[n]) then CampaignWrites(b, es[..n]) + [CampaignWrite(b, es[n])] else CampaignWrites(b, es[..n])
  }

  function GroupWrites(db: Db, b: Batch, es: seq<Entry>): seq<Write<GroupKey, string>> {
    if es == [] then [] else
    var n := |es| - 1;
    if Named(es[n]) then GroupWrites(db, b, es[..n]) + [GroupWrite(db, b, es[n])] else GroupWrites(db, b, es[..n])
  }

  function AdWrites(db: Db, b: Batch, es: seq<Entry>): seq<Write<AdKey, string>> {
    if es == [] then [] else
    var n := |es| - 1;
    if Named(es[n]) then AdWrites(db, b, es[..n]) + [AdWrite(db, b, es[n])] else AdWrites(db, b, es[..n])
  }

  function MetricWrites(db: Db, b: Batch, es: seq<Entry>): seq<Write<MetricKey, Values>> {
    if es == [] then [] else
    var n := |es| - 1;
    if Dated(b, es[n]) then MetricWrites(db, b, es[..n]) + [MetricWrite(db, b, es[n])] else MetricWrites(db, b, es[..n])
  }

  function CountMeasured(es: seq<Entry>): nat {
    Count(es, e => Measured(e))
  }

  /** A row that names an ad finds it, and a measured row has a date that parses. */
  ghost predicate Found(db: Db, b: Batch, e: Entry) {
    Named(e) ==> AdOf(db, b, e).Some? && (Measured(e) ==> Dated(b, e))
  }

  ghost predicate AllFound(db: Db, b: Batch, es: seq<Entry>) {
    forall j | 0 <= j < |es| :: Found(db, b, es[j])
  }

  lemma FoundIsStable(db: Db, db': Db, b: Batch, e: Entry)
    requires AllGrown(db, db') && Found(db, b, e)
    ensures Found(db', b, e)
    ensures Named(e) ==> GroupWrite(db', b, e) == GroupWrite(db, b, e) && AdWrite(db', b, e) == AdWrite(db, b, e)
    ensures Dated(b, e) ==> MetricWrite(db', b, e) == MetricWrite(db, b, e)
  {
    if Named(e) {
      LookupsAreStable(db, db', b, e);
    }
  }

  lemma {:induction false} WritesAreStable(db: Db, db': Db, b: Batch, es: seq<Entry>)
    requires AllGrown(db, db') && AllFound(db, b, es)
    ensures GroupWrites(db', b, es) == GroupWrites(db, b, es)
    ensures AdWrites(db', b, es) == AdWrites(db, b, es)
    ensures MetricWrites(db', b, es) == MetricWrites(db, b, es)
  {
    if es != [] {
      var n := |es| - 1;
      WritesAreStable(db, db', b, es[..n]);
      FoundIsStable(db, db', b, es[n]);
    }
  }

  lemma AllFoundIsStable(db: Db, db': Db, b: Batch, es: seq<Entry>)
    requires AllGrown(db, db') && AllFound(db, b, es)
    ensures AllFound(db', b, es)
  {
    forall j | 0 <= j < |es| ensures Found(db', b, es[j]) {
      FoundIsStable(db, db', b, es[j]);
    }
  }

  /** One row, told in upserts. */
  ghost predicate HierarchyIsPut(db: Db, db': Db, b: Batch, e: Entry) {
    && AllGrown(db, db') && Found(db', b, e)
    && db'.campaigns == (if Named(e) then PutWrite(db.campaigns, NEW_CAMPAIGN, CampaignWrite(b, e)) else db.campaigns)
    && db'.groups == (if Named(e) then PutWrite(db.groups, ActiveEntity, GroupWrite(db', b, e)) else db.groups)
    && db'.ads == (if Named(e) then PutWrite(db.ads, ActiveEntity, AdWrite(db', b, e)) else db.ads)
  }

  ghost predicate MetricsArePut(db: Db, db': Db, b: Batch, e: Entry) {
    if !Dated(b, e) then AllMetrics(db') == AllMetrics(db)
    else
      var w := MetricWrite(db', b, e);
      || AllMetrics(db') == PutWrite(AllMetrics(db), (), w)
      || (AllMetrics(db') == AllMetrics(db) + [Row(w.key, (), w.value)] && HasRepeats(AllMetrics(db')))
  }

  lemma AncestorsGrow(db: Db, b: Batch, e: Entry)
    requires WithAncestors(db, b, e).Some?
    ensures AllGrown(db, WithAncestors(db, b, e).value)
  {
    AncestorsArePuts(db, b, e);
    var mid := WithAncestors(db, b, e).value;
    var w1, w2, w3 := CampaignWrite(b, e), GroupWrite(mid, b, e), AdWrite(mid, b, e);
    PutFacts(db.campaigns, w1.key, NEW_CAMPAIGN, w1.value);
    PutFacts(db.groups, w2.key, ActiveEntity, w2.value);
    PutFacts(db.ads, w3.key, ActiveEntity, w3.value);
  }

  lemma MeasurementIsPut(db: Db, b: Batch, e: Entry)
    requires Dated(b, e) && AdOf(db, b, e).Some?
    ensures var w := MetricWrite(db, b, e);
            var db' := WithMetric(db, w.key, w.value);
            AllGrown(db, db') && MetricsArePut(db, db', b, e) && MetricWrite(db', b, e) == w
  {
    var w := MetricWrite(db, b, e);
    MetricIsPut(db, w.key, w.value);
    MetricGrows(db, w.key, w.value);
    LookupsAreStable(db, WithMetric(db, w.key, w.value), b, e);
  }

  lemma SyncRowIsPuts(db: Db, count: nat, b: Batch, e: Entry)
    requires SyncRow(db, count, b, e).Going?
    ensures HierarchyIsPut(db, SyncRow(db, count, b, e).db, b, e)
    ensures MetricsArePut(db, SyncRow(db, count, b, e).db, b, e)
    ensures SyncRow(db, count, b, e).count == count + (if Measured(e) then 1 else 0)
  {
    if Named(e) {
      var mid := WithAncestors(db, b, e).value;
      AncestorsArePuts(db, b, e);
      AncestorsGrow(db, b, e);
      if Measured(e) {
        MeasurementIsPut(mid, b, e);
        var w := MetricWrite(mid, b, e);
        LookupsAreStable(mid, WithMetric(mid, w.key, w.value), b, e);
      }
    }
  }

  /** A batch, told in upserts with the ids of the state it reaches. */
  ghost predicate BatchIsPuts(db: Db, db': Db, b: Batch, es: seq<Entry>) {
    && AllGrown(db, db') && AllFound(db', b, es)
    && db'.campaigns == Puts(db.campaigns, NEW_CAMPAIGN, CampaignWrites(b, es))
    && db'.groups == Puts(db.groups, ActiveEntity, GroupWrites(db', b, es))
    && db'.ads == Puts(db.ads, ActiveEntity, AdWrites(db', b, es))
    && (AllMetrics(db') == Puts(AllMetrics(db), (), MetricWrites(db', b, es)) || HasRepeats(AllMetrics(db')))
  }

  lemma GrownTransitive(db: Db, mid: Db, db': Db)
    requires AllGrown(db, mid) && AllGrown(mid, db')
    ensures AllGrown(db, db')
    ensures HasRepeats(AllMetrics(mid)) ==> HasRepeats(AllMetrics(db'))
  {
    if HasRepeats(AllMetrics(mid)) {
      var i, j :| 0 <= i < j < |AllMetrics(mid)| && AllMetrics(mid)[i].key == AllMetrics(mid)[j].key;
      assert AllMetrics(db')[i].key == AllMetrics(db')[j].key;
    }
  }

  lemma PutsOneMore<K(!new), F(!new), V(!new)>(t: Table<K, F, V>, created: F, ws: seq<Write<K, V>>, w: Write<K, V>)
    ensures Puts(t, created, ws + [w]) == PutWrite(Puts(t, created, ws), created, w)
  {
    assert (ws + [w])[..|ws|] == ws;
  }

  lemma WritesOneMore(db: Db, b: Batch, es: seq<Entry>, e: Entry)
    ensures CampaignWrites(b, es + [e]) == if Named(e) then CampaignWrites(b, es) + [CampaignWrite(b, e)] else CampaignWrites(b, es)
    ensures GroupWrites(db, b, es + [e]) == if Named(e) then GroupWrites(db, b, es) + [GroupWrite(db, b, e)] else GroupWrites(db, b, es)
    ensures AdWrites(db, b, es + [e]) == if Named(e) then AdWrites(db, b, es) + [AdWrite(db, b, e)] else AdWrites(db, b, es)
    ensures MetricWrites(db, b, es + [e]) == if Dated(b, e) then MetricWrites(db, b, es) + [MetricWrite(db, b, e)] else MetricWrites(db, b, es)
  {
    assert (es + [e])[..|es|] == es;
  }

  /** The writes told with the ids of a later state are the same writes. */
  lemma BatchFromLater(db: Db, mid: Db, db': Db, b: Batch, es: seq<Entry>)
    requires BatchIsPuts(db, mid, b, es) && AllGrown(mid, db')
    ensures AllGrown(db, db') && AllFound(db', b, es)
    ensures mid.campaigns == Puts(db.campaigns, NEW_CAMPAIGN, CampaignWrites(b, es))
    ensures mid.groups == Puts(db.groups, ActiveEntity, GroupWrites(db', b, es))
    ensures mid.ads == Puts(db.ads, ActiveEntity, AdWrites(db', b, es))
    ensures AllMetrics(mid) == Puts(AllMetrics(db), (), MetricWrites(db', b, es)) || HasRepeats(AllMetrics(db'))
  {
    GrownTransitive(db, mid, db');
    WritesAreStable(mid, db', b, es);
    AllFoundIsStable(mid, db', b, es);
  }

  lemma MetricsOneMore(db: Db, mid: Db, db': Db, b: Batch, es: seq<Entry>, e: Entry)
    requires BatchIsPuts(db, mid, b, es) && AllGrown(mid, db') && MetricsArePut(mid, db', b, e)
    ensures AllMetrics(db') == Puts(AllMetrics(db), (), MetricWrites(db', b, es + [e])) || HasRepeats(AllMetrics(db'))
  {
    BatchFromLater(db, mid, db', b, es);
    WritesOneMore(db', b, es, e);
    if Dated(b, e) {
      PutsOneMore(AllMetrics(db), (), MetricWrites(db', b, es), MetricWrite(db', b, e));
    }
  }

  lemma BatchOneMore(db: Db, mid: Db, db': Db, b: Batch, es: seq<Entry>, e: Entry)
    requires BatchIsPuts(db, mid, b, es)
    requires HierarchyIsPut(mid, db', b, e) && MetricsArePut(mid, db', b, e)
    ensures BatchIsPuts(db, db', b, es + [e])
  {
    BatchFromLater(db, mid, db', b, es);
    WritesOneMore(db', b, es, e);
    PutsOneMore(db.campaigns, NEW_CAMPAIGN, CampaignWrites(b, es), CampaignWrite(b, e));
    PutsOneMore(db.groups, ActiveEntity, GroupWrites(db', b, es), GroupWrite(db', b, e));
    PutsOneMore(db.ads, ActiveEntity, AdWrites(db', b, es), AdWrite(db', b, e));
    MetricsOneMore(db, mid, db', b, es, e);
  }

  lemma OneRowMore(db: Db, b: Batch, es: seq<Entry>, e: Entry)
    requires SyncRows(db, b, es + [e]).Going?
    ensures SyncRows(db, b, es).Going?
    ensures var mid := SyncRows(db, b, es);
            SyncRows(db, b, es + [e]) == SyncRow(mid.db, mid.count, b, e)
    ensures CountMeasured(es + [e]) == CountMeasured(es) + (if Measured(e) then 1 else 0)
  {
    assert (es + [e])[..|es|] == es;
  }

  lemma {:induction false} SyncRowsArePuts(db: Db, b: Batch, es: seq<Entry>)
    requires SyncRows(db, b, es).Going?
    ensures BatchIsPuts(db, SyncRows(db, b, es).db, b, es)
    ensures SyncRows(db, b, es).count == CountMeasured(es)
  {
    if es != [] {
      var init, e := es[..|es| - 1], es[|es| - 1];
      assert es == init + [e];
      OneRowMore(db, b, init, e);
      SyncRowsArePuts(db, b, init);
      var mid := SyncRows(db, b, init);
      SyncRowIsPuts(mid.db, mid.count, b, e);
      BatchOneMore(db, mid.db, SyncRows(db, b, es).db, b, init, e);
    }
  }
}
