/** The promises of a sync: syncing twice is syncing once, the last row wins, constraints and
    other accounts are kept. */
module AdSyncTheorems {
  import opened Common
  import opened Tables
  import opened AdStore
  import opened AdSync
  import opened AdSyncLaws

  /** The state a completed sync leaves: what its rows wrote, all flushed, no repeated metric. */
  lemma SyncResult(db: Db, b: Batch, es: seq<Entry>)
    requires Sync(db, b, es).Going?
    ensures var db' := Sync(db, b, es).db;
            && BatchIsPuts(db, db', b, es)
            && db'.pending == [] && AllMetrics(db') == db'.metrics && !HasRepeats(db'.metrics)
    ensures Sync(db, b, es).count == CountMeasured(es)
  {
    SyncRowsArePuts(db, b, es);
    var mid, db' := SyncRows(db, b, es).db, Sync(db, b, es).db;
    assert AllMetrics(db') == AllMetrics(mid) == db'.metrics;
    WritesAreStable(mid, db', b, es);
    AllFoundIsStable(mid, db', b, es);
    GrownTransitive(db, mid, db');
  }

  // ---- Last row wins ------------------------------------------------------------------------

  /** After a sync the name of every campaign, group and ad, and the values of every daily
      metric, are those of the last row of the batch about it, or the old ones when there is
      none. */
  lemma LastRowWins(db: Db, b: Batch, es: seq<Entry>, c: CampaignKey, g: GroupKey, a: AdKey, m: MetricKey)
    requires Sync(db, b, es).Going?
    ensures var db' := Sync(db, b, es).db;
            && ValueOf(db'.campaigns, c) == LastValue(CampaignWrites(b, es), c, ValueOf(db.campaigns, c))
            && ValueOf(db'.groups, g) == LastValue(GroupWrites(db', b, es), g, ValueOf(db.groups, g))
            && ValueOf(db'.ads, a) == LastValue(AdWrites(db', b, es), a, ValueOf(db.ads, a))
            && ValueOf(db'.metrics, m) == LastValue(MetricWrites(db', b, es), m, ValueOf(AllMetrics(db), m))
  {
    SyncResult(db, b, es);
    var db' := Sync(db, b, es).db;
    PutsAreLastWrites(db.campaigns, NEW_CAMPAIGN, CampaignWrites(b, es), c);
    PutsAreLastWrites(db.groups, ActiveEntity, GroupWrites(db', b, es), g);
    PutsAreLastWrites(db.ads, ActiveEntity, AdWrites(db', b, es), a);
    PutsAreLastWrites(AllMetrics(db), (), MetricWrites(db', b, es), m);
  }

  // ---- Twice is once --------------------------------------------------------------------------

  /** Everything the batch names is stored already. */
  ghost predicate Settled(db: Db, b: Batch, es: seq<Entry>) {
    && db.pending == [] && AllFound(db, b, es)
    && forall j | 0 <= j < |es| && Dated(b, es[j]) :: Find(db.metrics, MetricWrite(db, b, es[j]).key).Some?
  }

  /** Same rows, possibly renamed or re-measured. */
  ghost predicate SameKeys(db: Db, db': Db) {
    && AllGrown(db, db') && db'.pending == db.pending == []
    && |db'.campaigns| == |db.campaigns| && |db'.groups| == |db.groups|
    && |db'.ads| == |db.ads| && |db'.metrics| == |db.metrics|
  }

  lemma ResyncRow(db: Db, count: nat, b: Batch, e: Entry)
    requires Found(db, b, e) && db.pending == []
    requires Dated(b, e) ==> Find(db.metrics, MetricWrite(db, b, e).key).Some?
    ensures SyncRow(db, count, b, e).Going? && SameKeys(db, SyncRow(db, count, b, e).db)
  {
    if Named(e) {
      ReAncestors(db, b, e);
      var mid := WithAncestors(db, b, e).value;
      LookupsAreStable(db, mid, b, e);
      if Measured(e) {
        var w := MetricWrite(db, b, e);
        assert MetricWrite(mid, b, e) == w;
        MetricGrows(mid, w.key, w.value);
        GrownTransitive(db, mid, WithMetric(mid, w.key, w.value));
      }
    }
  }

  lemma ReAncestors(db: Db, b: Batch, e: Entry)
    requires AdOf(db, b, e).Some?
    ensures WithAncestors(db, b, e).Some?
    ensures var mid := WithAncestors(db, b, e).value;
            && AllGrown(db, mid) && mid.metrics == db.metrics && mid.pending == db.pending
            && |mid.campaigns| == |db.campaigns| && |mid.groups| == |db.groups| && |mid.ads| == |db.ads|
  {
    var c, g := CampaignOf(db, b, e).value, GroupOf(db, b, e).value;
    PutFacts(db.campaigns, CampaignKeyOf(b, e), NEW_CAMPAIGN, e.campaignName);
    PutFacts(db.groups, GroupKey(c, e.group), ActiveEntity, e.groupName);
    PutFacts(db.ads, AdKey(g, e.ad), ActiveEntity, e.adName);
  }

  /** What is settled stays settled while only values change. */
  lemma SettledRow(db: Db, mid: Db, b: Batch, e: Entry)
    requires SameKeys(db, mid) && Found(db, b, e)
    requires Dated(b, e) ==> Find(db.metrics, MetricWrite(db, b, e).key).Some?
    ensures Found(mid, b, e)
    ensures Dated(b, e) ==> Find(mid.metrics, MetricWrite(mid, b, e).key).Some?
  {
    FoundIsStable(db, mid, b, e);
    assert db.metrics + [] == db.metrics && mid.metrics + [] == mid.metrics;
    if Dated(b, e) {
      FindIsStable(db.metrics, mid.metrics, MetricWrite(db, b, e).key);
    }
  }

  lemma {:induction false} Resync(db: Db, b: Batch, es: seq<Entry>)
    requires Settled(db, b, es)
    ensures SyncRows(db, b, es).Going? && SameKeys(db, SyncRows(db, b, es).db)
  {
    if es != [] {
      var n := |es| - 1;
      SettledPrefix(db, b, es, n);
      Resync(db, b, es[..n]);
      var mid := SyncRows(db, b, es[..n]);
      assert Found(db, b, es[n]);
      SettledRow(db, mid.db, b, es[n]);
      ResyncRow(mid.db, mid.count, b, es[n]);
      GrownTransitive(db, mid.db, SyncRows(db, b, es).db);
    }
  }

  lemma SettledPrefix(db: Db, b: Batch, es: seq<Entry>, n: nat)
    requires Settled(db, b, es) && n <= |es|
    ensures Settled(db, b, es[..n])
  {
  }

  lemma {:induction false} MetricWritesCover(db: Db, b: Batch, es: seq<Entry>, j: nat)
    requires j < |es| && Dated(b, es[j])
    ensures Writes(MetricWrites(db, b, es), MetricWrite(db, b, es[j]).key)
  {
    var n := |es| - 1;
    var ws, init := MetricWrites(db, b, es), MetricWrites(db, b, es[..n]);
    if j == n {
      assert ws[|ws| - 1] == MetricWrite(db, b, es[j]);
    } else {
      MetricWritesCover(db, b, es[..n], j);
      var i :| 0 <= i < |init| && init[i].key == MetricWrite(db, b, es[j]).key;
      assert ws[i] == init[i];
    }
  }

  lemma SyncSettles(db: Db, b: Batch, es: seq<Entry>)
    requires Sync(db, b, es).Going?
    ensures Settled(Sync(db, b, es).db, b, es)
  {
    SyncResult(db, b, es);
    var db' := Sync(db, b, es).db;
    PutsGrow(AllMetrics(db), (), MetricWrites(db', b, es));
    forall j | 0 <= j < |es| && Dated(b, es[j]) ensures Find(db'.metrics, MetricWrite(db', b, es[j]).key).Some? {
      MetricWritesCover(db', b, es, j);
    }
  }

  lemma NoRepeatsIsUnique(t: Metrics)
    ensures !HasRepeats(t) <==> Unique(t)
  {
  }

  /** Syncing the same batch a second time changes nothing: not a row, not an id, not the
      reported count. */
  lemma SyncTwiceIsOnce(db: Db, b: Batch, es: seq<Entry>)
    requires Intact(db) && Sync(db, b, es).Going?
    ensures Sync(Sync(db, b, es).db, b, es) == Sync(db, b, es)
  {
    var once := Sync(db, b, es).db;
    SyncResult(db, b, es);
    SyncSettles(db, b, es);
    Resync(once, b, es);
    SyncRowsArePuts(once, b, es);
    SecondPassIsFirst(db, once, SyncRows(once, b, es).db, b, es);
    assert once.metrics + [] == once.metrics;
  }

  lemma SecondPassIsFirst(db: Db, once: Db, twice: Db, b: Batch, es: seq<Entry>)
    requires Intact(db)
    requires BatchIsPuts(db, once, b, es) && !HasRepeats(AllMetrics(once))
    requires BatchIsPuts(once, twice, b, es) && SameKeys(once, twice)
    ensures twice == once
  {
    WritesAreStable(once, twice, b, es);
    PutsTwice(db.campaigns, NEW_CAMPAIGN, CampaignWrites(b, es));
    PutsTwice(db.groups, ActiveEntity, GroupWrites(once, b, es));
    PutsTwice(db.ads, ActiveEntity, AdWrites(once, b, es));
    NoRepeatsIsUnique(AllMetrics(once));
    SameKeysSameRepeats(once, twice);
    assert Unique(AllMetrics(db)) by {
      forall i, j | 0 <= i < j < |AllMetrics(db)| ensures AllMetrics(db)[i].key != AllMetrics(db)[j].key {
        assert AllMetrics(once)[i].key != AllMetrics(once)[j].key;
      }
    }
    PutsTwice(AllMetrics(db), (), MetricWrites(once, b, es));
    assert twice.metrics + [] == twice.metrics && once.metrics + [] == once.metrics;
  }

  lemma SameKeysSameRepeats(db: Db, db': Db)
    requires SameKeys(db, db') && !HasRepeats(AllMetrics(db))
    ensures !HasRepeats(AllMetrics(db'))
  {
    var t, t' := AllMetrics(db), AllMetrics(db');
    assert |t'| == |t|;
    forall i, j | 0 <= i < j < |t'| ensures t'[i].key != t'[j].key {
      assert t[i].key != t[j].key;
    }
  }

  // ---- Constraints ------------------------------------------------------------------------------

  lemma HierarchyKeepsIntact(db: Db, db': Db, b: Batch, e: Entry)
    requires Intact(db) && HierarchyIsPut(db, db', b, e)
    ensures Unique(db'.campaigns) && Unique(db'.groups) && Unique(db'.ads)
    ensures forall i | 0 <= i < |db'.groups| :: db'.groups[i].key.campaign < |db'.campaigns|
    ensures forall i | 0 <= i < |db'.ads| :: db'.ads[i].key.group < |db'.groups|
  {
    if Named(e) {
      KeysPut(db.campaigns, NEW_CAMPAIGN, CampaignWrite(b, e));
      KeysPut(db.groups, ActiveEntity, GroupWrite(db', b, e));
      KeysPut(db.ads, ActiveEntity, AdWrite(db', b, e));
    }
  }

  lemma MetricsKeepAds(db: Db, db': Db, b: Batch, e: Entry)
    requires Intact(db) && HierarchyIsPut(db, db', b, e) && MetricsArePut(db, db', b, e)
    ensures forall i | 0 <= i < |AllMetrics(db')| :: AllMetrics(db')[i].key.ad < |db'.ads|
  {
    if Dated(b, e) {
      KeysPut(AllMetrics(db), (), MetricWrite(db', b, e));
    }
  }

  lemma RowKeepsIntact(db: Db, db': Db, b: Batch, e: Entry)
    requires Intact(db) && HierarchyIsPut(db, db', b, e) && MetricsArePut(db, db', b, e)
    ensures Intact(db')
  {
    HierarchyKeepsIntact(db, db', b, e);
    MetricsKeepAds(db, db', b, e);
  }

  /** An upsert keeps keys unique and stores at most one new key. */
  lemma KeysPut<K(!new), F(!new), V(!new)>(t: Table<K, F, V>, created: F, w: Write<K, V>)
    ensures var u := PutWrite(t, created, w);
            && (Unique(t) ==> Unique(u))
            && |t| <= |u|
            && forall i | 0 <= i < |u| :: u[i].key == w.key || (i < |t| && u[i] == t[i])
  {
    PutFacts(t, w.key, created, w.value);
  }

  lemma {:induction false} RowsKeepIntact(db: Db, b: Batch, es: seq<Entry>)
    requires Intact(db) && SyncRows(db, b, es).Going?
    ensures Intact(SyncRows(db, b, es).db)
  {
    if es != [] {
      var n := |es| - 1;
      RowsKeepIntact(db, b, es[..n]);
      var mid := SyncRows(db, b, es[..n]);
      SyncRowIsPuts(mid.db, mid.count, b, es[n]);
      RowKeepsIntact(mid.db, SyncRows(db, b, es).db, b, es[n]);
    }
  }

  /** A completed sync keeps every unique key and every foreign key, and leaves nothing
      pending. */
  lemma SyncKeepsConstraints(db: Db, b: Batch, es: seq<Entry>)
    requires Intact(db) && Sync(db, b, es).Going?
    ensures Intact(Sync(db, b, es).db)
    ensures Unique(Sync(db, b, es).db.metrics) && Sync(db, b, es).db.pending == []
  {
    SyncResult(db, b, es);
    RowsKeepIntact(db, b, es);
    NoRepeatsIsUnique(Sync(db, b, es).db.metrics);
    assert AllMetrics(Sync(db, b, es).db) == AllMetrics(SyncRows(db, b, es).db);
  }

  // ---- Other accounts ---------------------------------------------------------------------------

  ghost predicate CampaignOwned(db: Db, b: Batch, i: nat) {
    i < |db.campaigns| && db.campaigns[i].key.channel == b.channel && db.campaigns[i].key.platform == b.platform
  }

  ghost predicate GroupOwned(db: Db, b: Batch, i: nat) {
    i < |db.groups| && CampaignOwned(db, b, db.groups[i].key.campaign)
  }

  ghost predicate AdOwned(db: Db, b: Batch, i: nat) {
    i < |db.ads| && GroupOwned(db, b, db.ads[i].key.group)
  }

  ghost predicate MetricOwned(db: Db, b: Batch, i: nat) {
    i < |AllMetrics(db)| && AdOwned(db, b, AllMetrics(db)[i].key.ad)
  }

  /** Every row that is not of the batch's account is an old row, unchanged. */
  ghost predicate OthersKept(db: Db, db': Db, b: Batch) {
    && AllGrown(db, db')
    && (forall i | 0 <= i < |db'.campaigns| && !CampaignOwned(db', b, i) :: i < |db.campaigns| && db'.campaigns[i] == db.campaigns[i])
    && (forall i | 0 <= i < |db'.groups| && !GroupOwned(db', b, i) :: i < |db.groups| && db'.groups[i] == db.groups[i])
    && (forall i | 0 <= i < |db'.ads| && !AdOwned(db', b, i) :: i < |db.ads| && db'.ads[i] == db.ads[i])
    && (forall i | 0 <= i < |AllMetrics(db')| && !MetricOwned(db', b, i) ::
          i < |AllMetrics(db)| && AllMetrics(db')[i] == AllMetrics(db)[i])
  }

  /** The row of each level that a batch row writes is owned. */
  lemma WrittenIsOwned(db: Db, b: Batch, e: Entry, i: nat)
    requires AdOf(db, b, e).Some?
    ensures i < |db.campaigns| && db.campaigns[i].key == CampaignWrite(b, e).key ==> CampaignOwned(db, b, i)
    ensures i < |db.groups| && db.groups[i].key == GroupWrite(db, b, e).key ==> GroupOwned(db, b, i)
    ensures i < |db.ads| && db.ads[i].key == AdWrite(db, b, e).key ==> AdOwned(db, b, i)
    ensures Dated(b, e) && i < |AllMetrics(db)| && AllMetrics(db)[i].key == MetricWrite(db, b, e).key ==> MetricOwned(db, b, i)
  {
  }

  /** A row rewrites or adds only what it writes about. */
  lemma OnlyWrittenChange(db: Db, db': Db, b: Batch, e: Entry)
    requires Named(e) && HierarchyIsPut(db, db', b, e)
    ensures forall i | 0 <= i < |db'.campaigns| :: db'.campaigns[i].key == CampaignWrite(b, e).key || (i < |db.campaigns| && db'.campaigns[i] == db.campaigns[i])
    ensures forall i | 0 <= i < |db'.groups| :: db'.groups[i].key == GroupWrite(db', b, e).key || (i < |db.groups| && db'.groups[i] == db.groups[i])
    ensures forall i | 0 <= i < |db'.ads| :: db'.ads[i].key == AdWrite(db', b, e).key || (i < |db.ads| && db'.ads[i] == db.ads[i])
  {
    KeysPut(db.campaigns, NEW_CAMPAIGN, CampaignWrite(b, e));
    KeysPut(db.groups, ActiveEntity, GroupWrite(db', b, e));
    KeysPut(db.ads, ActiveEntity, AdWrite(db', b, e));
  }

  lemma OnlyWrittenMetricChanges(db: Db, db': Db, b: Batch, e: Entry)
    requires Dated(b, e) && HierarchyIsPut(db, db', b, e) && MetricsArePut(db, db', b, e)
    ensures forall i | 0 <= i < |AllMetrics(db')| ::
              AllMetrics(db')[i].key == MetricWrite(db', b, e).key || (i < |AllMetrics(db)| && AllMetrics(db')[i] == AllMetrics(db)[i])
  {
    KeysPut(AllMetrics(db), (), MetricWrite(db', b, e));
  }

  lemma RowKeepsOthers(db: Db, db': Db, b: Batch, e: Entry)
    requires HierarchyIsPut(db, db', b, e) && MetricsArePut(db, db', b, e)
    ensures OthersKept(db, db', b)
  {
    if Named(e) {
      OnlyWrittenChange(db, db', b, e);
      if Dated(b, e) {
        OnlyWrittenMetricChanges(db, db', b, e);
      }
      forall i: nat
        ensures i < |db'.campaigns| && db'.campaigns[i].key == CampaignWrite(b, e).key ==> CampaignOwned(db', b, i)
        ensures i < |db'.groups| && db'.groups[i].key == GroupWrite(db', b, e).key ==> GroupOwned(db', b, i)
        ensures i < |db'.ads| && db'.ads[i].key == AdWrite(db', b, e).key ==> AdOwned(db', b, i)
        ensures Dated(b, e) && i < |AllMetrics(db')| && AllMetrics(db')[i].key == MetricWrite(db', b, e).key ==> MetricOwned(db', b, i)
      {
        WrittenIsOwned(db', b, e, i);
      }
    }
  }

  lemma OwnershipIsStable(db: Db, db': Db, b: Batch)
    requires AllGrown(db, db') && Intact(db)
    ensures forall i | 0 <= i < |db.campaigns| :: CampaignOwned(db', b, i) <==> CampaignOwned(db, b, i)
    ensures forall i | 0 <= i < |db.groups| :: GroupOwned(db', b, i) <==> GroupOwned(db, b, i)
    ensures forall i | 0 <= i < |db.ads| :: AdOwned(db', b, i) <==> AdOwned(db, b, i)
    ensures forall i | 0 <= i < |AllMetrics(db)| :: MetricOwned(db', b, i) <==> MetricOwned(db, b, i)
  {
  }

  lemma OthersKeptTransitive(db: Db, mid: Db, db': Db, b: Batch)
    requires Intact(mid) && OthersKept(db, mid, b) && OthersKept(mid, db', b)
    ensures OthersKept(db, db', b)
  {
    GrownTransitive(db, mid, db');
    OwnershipIsStable(mid, db', b);
  }

  lemma {:induction false} RowsKeepOthers(db: Db, b: Batch, es: seq<Entry>)
    requires Intact(db) && SyncRows(db, b, es).Going?
    ensures Intact(SyncRows(db, b, es).db) && OthersKept(db, SyncRows(db, b, es).db, b)
  {
    RowsKeepIntact(db, b, es);
    if es != [] {
      var n := |es| - 1;
      RowsKeepOthers(db, b, es[..n]);
      var mid, db' := SyncRows(db, b, es[..n]), SyncRows(db, b, es).db;
      SyncRowIsPuts(mid.db, mid.count, b, es[n]);
      RowKeepsOthers(mid.db, db', b, es[n]);
      OthersKeptTransitive(db, mid.db, db', b);
    }
  }

  /** A sync touches no other channel and no other platform. */
  lemma SyncKeepsOtherAccounts(db: Db, b: Batch, es: seq<Entry>)
    requires Intact(db) && Sync(db, b, es).Going?
    ensures Intact(Sync(db, b, es).db) && OthersKept(db, Sync(db, b, es).db, b)
  {
    SyncKeepsConstraints(db, b, es);
    RowsKeepOthers(db, b, es);
    assert AllMetrics(Sync(db, b, es).db) == AllMetrics(SyncRows(db, b, es).db);
  }
}
