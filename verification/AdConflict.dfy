/** Exactly when a batch breaks the uniqueness of daily metrics.

    A new metric row stays pending until the next flush, and a pending row is invisible to the
    lookup of the next row about the same ad and day.  Only rows that create a campaign, group
    or ad flush on the way. */
module AdConflict {
  import opened Common
  import opened Tables
  import opened AdStore
  import opened AdSync
  import opened AdSyncLaws
  import opened AdSyncTheorems

  predicate SamePath(e: Entry, f: Entry) {
    Named(e) && e.campaign == f.campaign && e.group == f.group && e.ad == f.ad
  }

  predicate SameMeasure(b: Batch, e: Entry, f: Entry) {
    SamePath(e, f) && Dated(b, e) && Dated(b, f) && b.parseDate(e.date) == b.parseDate(f.date)
  }

  /** Row `m` names an ad that is stored already, or that an earlier row named. */
  ghost predicate Known(db: Db, b: Batch, es: seq<Entry>, m: nat)
    requires m < |es|
  {
    AdOf(db, b, es[m]).Some? || exists l :: 0 <= l < m && SamePath(es[l], es[m])
  }

  ghost predicate Stored(db: Db, b: Batch, e: Entry) {
    Dated(b, e) && AdOf(db, b, e).Some? && Find(db.metrics, MetricWrite(db, b, e).key).Some?
  }

  /** Row `i` is the first of the batch about an ad and day not stored yet, and no row after
      it and before row `n` makes the session flush. */
  ghost predicate Open(db: Db, b: Batch, es: seq<Entry>, i: nat, n: nat)
    requires i < n <= |es|
  {
    && Dated(b, es[i]) && !Stored(db, b, es[i])
    && (forall l | 0 <= l < i :: !SameMeasure(b, es[l], es[i]))
    && (forall m | i < m < n && Named(es[m]) :: Known(db, b, es, m))
  }

  /** Two rows about one ad and day, the first of them still pending when the second comes. */
  ghost predicate Clash(db: Db, b: Batch, es: seq<Entry>, i: nat, j: nat)
    requires i < j < |es|
  {
    SameMeasure(b, es[i], es[j]) && Open(db, b, es, i, j)
  }

  // ---- Lookups after a row ----------------------------------------------------------------

  lemma FindAfterPut<K(!new), F(!new), V(!new)>(t: Table<K, F, V>, k: K, created: F, v: V, x: K)
    ensures Find(Put(t, k, created, v), x) ==
            if x == k && Find(t, k).None? then Some(|t|) else Find(t, x)
  {
    PutFacts(t, k, created, v);
    if Find(t, x).Some? {
      FindIsStable(t, Put(t, k, created, v), x);
    }
  }

  /** A row makes its own path known and no other. */
  lemma PathsAfterRow(db: Db, db': Db, b: Batch, e: Entry, f: Entry)
    requires Intact(db) && Named(e) && HierarchyIsPut(db, db', b, e)
    ensures AdOf(db', b, f).Some? <==> AdOf(db, b, f).Some? || SamePath(e, f)
  {
    if AdOf(db, b, f).Some? {
      LookupsAreStable(db, db', b, f);
    } else if AdOf(db', b, f).Some? {
      OnlyItsPath(db, db', b, e, f);
    }
    if SamePath(e, f) {
      assert AdOf(db', b, f) == AdOf(db', b, e);
    }
  }

  lemma OnlyItsPath(db: Db, db': Db, b: Batch, e: Entry, f: Entry)
    requires Intact(db) && Named(e) && HierarchyIsPut(db, db', b, e)
    requires AdOf(db, b, f).None? && AdOf(db', b, f).Some?
    ensures SamePath(e, f)
  {
    var w := AdWrite(db', b, e);
    var a := AdOf(db', b, f).value;
    PutFacts(db.ads, w.key, ActiveEntity, w.value);
    if a < |db.ads| {
      OldAdHasOldPath(db, db', b, f);
    } else {
      assert db'.ads[a].key == w.key;
      SameAdSamePath(db', b, e, f);
    }
  }

  /** One ad stands for one path. */
  lemma SameAdSamePath(db: Db, b: Batch, e: Entry, f: Entry)
    requires Named(e) && AdOf(db, b, e).Some? && AdOf(db, b, f).Some?
    requires db.ads[AdOf(db, b, f).value].key == AdWrite(db, b, e).key
    ensures SamePath(e, f)
  {
    var g := GroupOf(db, b, f).value;
    assert GroupOf(db, b, e) == Some(g);
    assert db.groups[g].key == GroupKey(CampaignOf(db, b, e).value, e.group);
  }

  /** An ad that was there was found under the same path. */
  lemma OldAdHasOldPath(db: Db, db': Db, b: Batch, f: Entry)
    requires Intact(db) && AllGrown(db, db')
    requires AdOf(db', b, f).Some? && AdOf(db', b, f).value < |db.ads|
    ensures AdOf(db, b, f).Some?
  {
    var c, g, a := CampaignOf(db', b, f).value, GroupOf(db', b, f).value, AdOf(db', b, f).value;
    assert db.ads[a].key == AdKey(g, f.ad);
    assert db.groups[g].key == GroupKey(c, f.group);
    assert db.campaigns[c].key == CampaignKeyOf(b, f);
    FindIsStable(db.campaigns, db'.campaigns, CampaignKeyOf(b, f));
    FindIsStable(db.groups, db'.groups, GroupKey(c, f.group));
  }

  /** Two measured rows write the same metric exactly when they are about one ad and day. */
  lemma KeysMatch(db: Db, b: Batch, e: Entry, f: Entry)
    requires AdOf(db, b, e).Some? && AdOf(db, b, f).Some?
    requires Dated(b, e) && Dated(b, f)
    ensures MetricWrite(db, b, e).key == MetricWrite(db, b, f).key <==> SameMeasure(b, e, f)
  {
  }

  // ---- What the session holds after a prefix without clash ------------------------------------

  ghost predicate PathsAgree(db: Db, mid: Db, b: Batch, es: seq<Entry>, n: nat)
    requires n <= |es|
  {
    forall f :: AdOf(mid, b, f).Some? <==> AdOf(db, b, f).Some? || exists l :: 0 <= l < n && SamePath(es[l], f)
  }

  /** The pending rows are the open ones. */
  ghost predicate PendingAgrees(db: Db, mid: Db, b: Batch, es: seq<Entry>, n: nat)
    requires n <= |es|
  {
    forall f | Dated(b, f) && AdOf(mid, b, f).Some? ::
      Find(mid.pending, MetricWrite(mid, b, f).key).Some? <==> OpenAbout(db, b, es, f, n, n)
  }

  /** Some row before row `n` is about the ad and day of `f` and still open at row `until`. */
  ghost predicate OpenAbout(db: Db, b: Batch, es: seq<Entry>, f: Entry, n: nat, until: nat)
    requires n <= until <= |es|
  {
    exists i :: 0 <= i < n && SameMeasure(b, es[i], f) && Open(db, b, es, i, until)
  }

  /** Together, stored and pending rows are the stored ones and those of the prefix. */
  ghost predicate MeasuresAgree(db: Db, mid: Db, b: Batch, es: seq<Entry>, n: nat)
    requires n <= |es|
  {
    forall f | Dated(b, f) && AdOf(mid, b, f).Some? ::
      Find(AllMetrics(mid), MetricWrite(mid, b, f).key).Some? <==>
      Stored(db, b, f) || exists l :: 0 <= l < n && SameMeasure(b, es[l], f)
  }

  ghost predicate Agrees(db: Db, mid: Db, b: Batch, es: seq<Entry>, n: nat)
    requires n <= |es|
  {
    && Intact(mid) && AllGrown(db, mid) && !HasRepeats(AllMetrics(mid))
    && PathsAgree(db, mid, b, es, n) && PendingAgrees(db, mid, b, es, n) && MeasuresAgree(db, mid, b, es, n)
  }

  lemma AgreesAtStart(db: Db, b: Batch, es: seq<Entry>)
    requires Intact(db) && db.pending == [] && Unique(db.metrics)
    ensures Agrees(db, db, b, es, 0)
  {
    assert AllMetrics(db) == db.metrics;
  }

  // ---- One more row -----------------------------------------------------------------------------

  /** Without repeats the hierarchy part never conflicts, and flushes exactly when the row's
      ad is new. */
  lemma AncestorsFlush(db: Db, b: Batch, e: Entry)
    requires Intact(db) && !HasRepeats(AllMetrics(db))
    ensures WithAncestors(db, b, e).Some?
    ensures var anc := WithAncestors(db, b, e).value;
            if AdOf(db, b, e).Some? then anc.metrics == db.metrics && anc.pending == db.pending
            else anc.metrics == AllMetrics(db) && anc.pending == []
  {
    if AdOf(db, b, e).Some? {
      ReAncestors(db, b, e);
    } else {
      NewAdFlushes(db, b, e);
    }
  }

  ghost predicate FlushedFrom(db: Db, db': Db) {
    || (db'.metrics == db.metrics && db'.pending == db.pending)
    || (db'.metrics == AllMetrics(db) && db'.pending == [])
  }

  lemma NewAdFlushes(db: Db, b: Batch, e: Entry)
    requires Intact(db) && !HasRepeats(AllMetrics(db)) && AdOf(db, b, e).None?
    ensures WithAncestors(db, b, e).Some?
    ensures WithAncestors(db, b, e).value.metrics == AllMetrics(db) && WithAncestors(db, b, e).value.pending == []
  {
    var k := CampaignKeyOf(b, e);
    assert AllMetrics(db) + [] == AllMetrics(db);
    CampaignLevel(db, k, e.campaignName);
    var db1 := WithCampaign(db, k, e.campaignName).value;
    assert FlushedFrom(db, db1) && AllMetrics(db1) == AllMetrics(db);
    FindAfterPut(db.campaigns, k, NEW_CAMPAIGN, e.campaignName, k);
    var c := Find(db1.campaigns, k).value;
    var gk := GroupKey(c, e.group);
    GroupLevel(db1, gk, e.groupName);
    var db2 := WithGroup(db1, gk, e.groupName).value;
    assert FlushedFrom(db, db2) && AllMetrics(db2) == AllMetrics(db);
    FindAfterPut(db1.groups, gk, ActiveEntity, e.groupName, gk);
    var g := Find(db2.groups, gk).value;
    AdLevel(db2, AdKey(g, e.ad), e.adName);
    assert Find(db2.ads, AdKey(g, e.ad)).None?;
  }

  /** Open rows at `n` that survive row `n`, before its metric is written. */
  ghost predicate PendingBetween(db: Db, anc: Db, b: Batch, es: seq<Entry>, n: nat)
    requires n < |es|
  {
    forall f | Dated(b, f) && AdOf(anc, b, f).Some? ::
      Find(anc.pending, MetricWrite(anc, b, f).key).Some? <==> OpenAbout(db, b, es, f, n, n + 1)
  }

  lemma OpenAfterRow(db: Db, b: Batch, es: seq<Entry>, i: nat, n: nat)
    requires i < n < |es|
    ensures Open(db, b, es, i, n + 1) <==> Open(db, b, es, i, n) && (Named(es[n]) ==> Known(db, b, es, n))
  {
  }

  lemma AncestorsHold(mid: Db, b: Batch, e: Entry)
    requires Intact(mid) && !HasRepeats(AllMetrics(mid)) && Named(e) && (Measured(e) ==> Dated(b, e))
    ensures WithAncestors(mid, b, e).Some?
    ensures var anc := WithAncestors(mid, b, e).value;
            HierarchyIsPut(mid, anc, b, e) && AllMetrics(anc) == AllMetrics(mid) && AdOf(anc, b, e).Some?
  {
    AncestorsFlush(mid, b, e);
    AncestorsArePuts(mid, b, e);
    AncestorsGrow(mid, b, e);
  }

  lemma PathsAgreeAfter(db: Db, mid: Db, anc: Db, b: Batch, es: seq<Entry>, n: nat)
    requires n < |es| && Intact(mid) && PathsAgree(db, mid, b, es, n)
    requires Named(es[n]) && HierarchyIsPut(mid, anc, b, es[n])
    ensures PathsAgree(db, anc, b, es, n + 1)
  {
    forall f
      ensures AdOf(anc, b, f).Some? <==> AdOf(db, b, f).Some? || exists l :: 0 <= l < n + 1 && SamePath(es[l], f)
    {
      PathsAfterRow(mid, anc, b, es[n], f);
    }
  }

  /** An ad this row created has no metric yet, stored or pending. */
  lemma NewAdHasNoMetric(mid: Db, anc: Db, b: Batch, e: Entry, f: Entry)
    requires Intact(mid) && Named(e) && HierarchyIsPut(mid, anc, b, e) && AllMetrics(anc) == AllMetrics(mid)
    requires AdOf(mid, b, f).None? && AdOf(anc, b, f).Some? && Dated(b, f)
    ensures Find(AllMetrics(anc), MetricWrite(anc, b, f).key).None?
  {
    PathsAfterRow(mid, anc, b, e, f);
    var w := AdWrite(anc, b, e);
    assert AdOf(anc, b, f) == AdOf(anc, b, e);
    FindAfterPut(mid.ads, w.key, ActiveEntity, w.value, w.key);
    var a := AdOf(anc, b, f).value;
    if a < |mid.ads| {
      NewPathIsNewAd(mid, anc, b, e);
    }
  }

  /** A path unknown before is stored as a new ad, not under an old id. */
  lemma NewPathIsNewAd(mid: Db, anc: Db, b: Batch, e: Entry)
    requires Intact(mid) && Named(e) && HierarchyIsPut(mid, anc, b, e) && AdOf(mid, b, e).None?
    ensures AdOf(anc, b, e) == Some(|mid.ads|)
  {
    var w1, w2, w3 := CampaignWrite(b, e), GroupWrite(anc, b, e), AdWrite(anc, b, e);
    FindAfterPut(mid.campaigns, w1.key, NEW_CAMPAIGN, w1.value, w1.key);
    FindAfterPut(mid.groups, w2.key, ActiveEntity, w2.value, w2.key);
    FindAfterPut(mid.ads, w3.key, ActiveEntity, w3.value, w3.key);
  }

  lemma MeasuresAgreeAfter(db: Db, mid: Db, anc: Db, b: Batch, es: seq<Entry>, n: nat)
    requires n < |es| && Agrees(db, mid, b, es, n)
    requires Named(es[n]) && HierarchyIsPut(mid, anc, b, es[n]) && AllMetrics(anc) == AllMetrics(mid)
    ensures MeasuresAgree(db, anc, b, es, n)
  {
    forall f | Dated(b, f) && AdOf(anc, b, f).Some?
      ensures Find(AllMetrics(anc), MetricWrite(anc, b, f).key).Some? <==>
              Stored(db, b, f) || exists l :: 0 <= l < n && SameMeasure(b, es[l], f)
    {
      if AdOf(mid, b, f).Some? {
        LookupsAreStable(mid, anc, b, f);
      } else {
        NewAdHasNoMetric(mid, anc, b, es[n], f);
      }
    }
  }

  lemma OpenAboutAfterRow(db: Db, b: Batch, es: seq<Entry>, f: Entry, n: nat)
    requires n < |es| && Named(es[n])
    ensures OpenAbout(db, b, es, f, n, n + 1) <==> OpenAbout(db, b, es, f, n, n) && Known(db, b, es, n)
  {
    forall i | 0 <= i < n ensures Open(db, b, es, i, n + 1) <==> Open(db, b, es, i, n) && Known(db, b, es, n) {
      OpenAfterRow(db, b, es, i, n);
    }
  }

  lemma PendingAgreesAfter(db: Db, mid: Db, b: Batch, es: seq<Entry>, n: nat)
    requires n < |es| && Agrees(db, mid, b, es, n) && Named(es[n]) && (Measured(es[n]) ==> Dated(b, es[n]))
    ensures WithAncestors(mid, b, es[n]).Some? && PendingBetween(db, WithAncestors(mid, b, es[n]).value, b, es, n)
  {
    AncestorsFlush(mid, b, es[n]);
    AncestorsHold(mid, b, es[n]);
    var anc := WithAncestors(mid, b, es[n]).value;
    assert AdOf(mid, b, es[n]).Some? <==> Known(db, b, es, n);
    forall f | Dated(b, f) && AdOf(anc, b, f).Some?
      ensures Find(anc.pending, MetricWrite(anc, b, f).key).Some? <==> OpenAbout(db, b, es, f, n, n + 1)
    {
      OpenAboutAfterRow(db, b, es, f, n);
      if AdOf(mid, b, es[n]).Some? {
        KnownStaysPlaced(mid, anc, b, es[n], f);
      }
    }
  }

  /** A row about a known ad makes no path known. */
  lemma KnownStaysPlaced(mid: Db, anc: Db, b: Batch, e: Entry, f: Entry)
    requires Intact(mid) && Named(e) && HierarchyIsPut(mid, anc, b, e)
    requires AdOf(mid, b, e).Some? && AdOf(anc, b, f).Some?
    ensures AdOf(mid, b, f) == AdOf(anc, b, f)
  {
    PathsAfterRow(mid, anc, b, e, f);
    if SamePath(e, f) {
      assert AdOf(mid, b, f) == AdOf(mid, b, e);
    }
    LookupsAreStable(mid, anc, b, f);
  }

  /** The measured part of a row: it repeats a pending row exactly at a clash. */
  lemma MeasurementAgrees(db: Db, anc: Db, b: Batch, es: seq<Entry>, n: nat)
    requires n < |es| && Dated(b, es[n]) && AdOf(anc, b, es[n]).Some? && !HasRepeats(AllMetrics(anc))
    requires PendingBetween(db, anc, b, es, n) && PathsAgree(db, anc, b, es, n + 1) && MeasuresAgree(db, anc, b, es, n)
    requires var w := MetricWrite(anc, b, es[n]); Find(anc.metrics, w.key).Some? || Find(anc.pending, w.key).None?
    ensures var w := MetricWrite(anc, b, es[n]);
            var after := WithMetric(anc, w.key, w.value);
            && !HasRepeats(AllMetrics(after)) && PathsAgree(db, after, b, es, n + 1)
            && PendingAgrees(db, after, b, es, n + 1) && MeasuresAgree(db, after, b, es, n + 1)
  {
    var w := MetricWrite(anc, b, es[n]);
    var after := WithMetric(anc, w.key, w.value);
    NoRepeatAfterMeasurement(anc, w);
    SamePlaces(anc, after, b);
    forall f | Dated(b, f) && AdOf(anc, b, f).Some?
      ensures Find(AllMetrics(after), MetricWrite(anc, b, f).key).Some? <==>
              Stored(db, b, f) || exists l :: 0 <= l < n + 1 && SameMeasure(b, es[l], f)
      ensures Find(after.pending, MetricWrite(anc, b, f).key).Some? <==> OpenAbout(db, b, es, f, n + 1, n + 1)
    {
      MeasuresAfterMeasurement(db, anc, b, es, n, f);
      PendingAfterMeasurement(db, anc, b, es, n, f);
    }
  }

  /** Writing a metric moves no ad. */
  lemma SamePlaces(db: Db, db': Db, b: Batch)
    requires db'.campaigns == db.campaigns && db'.groups == db.groups && db'.ads == db.ads
    ensures forall f :: AdOf(db', b, f) == AdOf(db, b, f)
    ensures forall f | Dated(b, f) :: MetricWrite(db', b, f) == MetricWrite(db, b, f)
  {
  }

  lemma NoRepeatAfterMeasurement(anc: Db, w: Write<MetricKey, Values>)
    requires !HasRepeats(AllMetrics(anc))
    requires Find(anc.metrics, w.key).Some? || Find(anc.pending, w.key).None?
    ensures !HasRepeats(AllMetrics(WithMetric(anc, w.key, w.value)))
    ensures AllMetrics(WithMetric(anc, w.key, w.value)) == PutWrite(AllMetrics(anc), (), w)
  {
    var after := WithMetric(anc, w.key, w.value);
    MetricIsPut(anc, w.key, w.value);
    NoRepeatsIsUnique(AllMetrics(anc));
    KeysPut(AllMetrics(anc), (), w);
    NoRepeatsIsUnique(AllMetrics(after));
  }

  lemma MeasuresAfterMeasurement(db: Db, anc: Db, b: Batch, es: seq<Entry>, n: nat, f: Entry)
    requires n < |es| && Dated(b, es[n]) && AdOf(anc, b, es[n]).Some? && !HasRepeats(AllMetrics(anc))
    requires MeasuresAgree(db, anc, b, es, n)
    requires Dated(b, f) && AdOf(anc, b, f).Some?
    requires var w := MetricWrite(anc, b, es[n]); Find(anc.metrics, w.key).Some? || Find(anc.pending, w.key).None?
    ensures var w := MetricWrite(anc, b, es[n]);
            Find(AllMetrics(WithMetric(anc, w.key, w.value)), MetricWrite(anc, b, f).key).Some? <==>
            Stored(db, b, f) || exists l :: 0 <= l < n + 1 && SameMeasure(b, es[l], f)
  {
    var w := MetricWrite(anc, b, es[n]);
    NoRepeatAfterMeasurement(anc, w);
    FindAfterPut(AllMetrics(anc), w.key, (), w.value, MetricWrite(anc, b, f).key);
    KeysMatch(anc, b, es[n], f);
  }

  lemma PendingAfterMeasurement(db: Db, anc: Db, b: Batch, es: seq<Entry>, n: nat, f: Entry)
    requires n < |es| && Dated(b, es[n]) && AdOf(anc, b, es[n]).Some?
    requires PendingBetween(db, anc, b, es, n) && MeasuresAgree(db, anc, b, es, n)
    requires Dated(b, f) && AdOf(anc, b, f).Some?
    requires var w := MetricWrite(anc, b, es[n]); Find(anc.metrics, w.key).Some? || Find(anc.pending, w.key).None?
    ensures var w := MetricWrite(anc, b, es[n]);
            Find(WithMetric(anc, w.key, w.value).pending, MetricWrite(anc, b, f).key).Some? <==>
            OpenAbout(db, b, es, f, n + 1, n + 1)
  {
    var w := MetricWrite(anc, b, es[n]);
    var k := MetricWrite(anc, b, f).key;
    KeysMatch(anc, b, es[n], f);
    AllIsBoth(anc, w.key);
    assert Open(db, b, es, n, n + 1) <==> Find(anc.metrics, w.key).None?;
    if Find(anc.metrics, w.key).None? {
      AppendedIsFound(anc.pending, Row(w.key, (), w.value), k);
    }
  }

  lemma AllIsBoth(db: Db, k: MetricKey)
    ensures Find(AllMetrics(db), k).Some? <==> Find(db.metrics, k).Some? || Find(db.pending, k).Some?
  {
    var all := AllMetrics(db);
    if Find(db.metrics, k).Some? {
      assert all[Find(db.metrics, k).value].key == k;
    }
    if Find(db.pending, k).Some? {
      assert all[|db.metrics| + Find(db.pending, k).value].key == k;
    }
  }

  lemma AppendedIsFound<K(!new), F(!new), V(!new)>(t: Table<K, F, V>, row: Row<K, F, V>, k: K)
    ensures Find(t + [row], k).Some? <==> Find(t, k).Some? || row.key == k
  {
    var u := t + [row];
    assert u[|t|] == row;
    if Find(t, k).Some? {
      assert u[Find(t, k).value].key == k;
    }
  }

  ghost predicate ClashesAt(db: Db, b: Batch, es: seq<Entry>, n: nat)
    requires n < |es|
  {
    exists i :: 0 <= i < n && Clash(db, b, es, i, n)
  }

  /** One row: a clash leaves a repeat among the pending rows, anything else keeps agreement. */
  lemma RowAgrees(db: Db, mid: Db, count: nat, b: Batch, es: seq<Entry>, n: nat)
    requires n < |es| && Agrees(db, mid, b, es, n) && (Measured(es[n]) ==> Dated(b, es[n]))
    ensures SyncRow(mid, count, b, es[n]).Going?
    ensures var after := SyncRow(mid, count, b, es[n]).db;
            if ClashesAt(db, b, es, n) then HasRepeats(AllMetrics(after)) else Agrees(db, after, b, es, n + 1)
  {
    if !Named(es[n]) {
      UnnamedAgrees(db, mid, b, es, n);
    } else {
      AncestorsHold(mid, b, es[n]);
      var anc := WithAncestors(mid, b, es[n]).value;
      PathsAgreeAfter(db, mid, anc, b, es, n);
      MeasuresAgreeAfter(db, mid, anc, b, es, n);
      PendingAgreesAfter(db, mid, b, es, n);
      NamedAgrees(db, mid, anc, count, b, es, n);
    }
  }

  lemma UnnamedAgrees(db: Db, mid: Db, b: Batch, es: seq<Entry>, n: nat)
    requires n < |es| && Agrees(db, mid, b, es, n) && !Named(es[n])
    ensures Agrees(db, mid, b, es, n + 1) && !ClashesAt(db, b, es, n)
  {
    forall i | 0 <= i < n ensures Open(db, b, es, i, n + 1) <==> Open(db, b, es, i, n) {
      OpenAfterRow(db, b, es, i, n);
    }
  }

  lemma NamedAgrees(db: Db, mid: Db, anc: Db, count: nat, b: Batch, es: seq<Entry>, n: nat)
    requires n < |es| && Agrees(db, mid, b, es, n) && Named(es[n]) && (Measured(es[n]) ==> Dated(b, es[n]))
    requires WithAncestors(mid, b, es[n]) == Some(anc)
    requires HierarchyIsPut(mid, anc, b, es[n]) && AllMetrics(anc) == AllMetrics(mid) && AdOf(anc, b, es[n]).Some?
    requires PathsAgree(db, anc, b, es, n + 1) && PendingBetween(db, anc, b, es, n) && MeasuresAgree(db, anc, b, es, n)
    ensures SyncRow(mid, count, b, es[n]).Going?
    ensures var after := SyncRow(mid, count, b, es[n]).db;
            if ClashesAt(db, b, es, n) then HasRepeats(AllMetrics(after)) else Agrees(db, after, b, es, n + 1)
  {
    var after := SyncRow(mid, count, b, es[n]).db;
    SyncRowIsPuts(mid, count, b, es[n]);
    RowKeepsIntact(mid, after, b, es[n]);
    GrownTransitive(db, mid, after);
    if Dated(b, es[n]) {
      var w := MetricWrite(anc, b, es[n]);
      ClashIsPending(db, anc, b, es, n);
      if ClashesAt(db, b, es, n) {
        MetricIsPut(anc, w.key, w.value);
      } else {
        MeasurementAgrees(db, anc, b, es, n);
      }
    } else {
      UnmeasuredAgrees(db, anc, b, es, n);
    }
  }

  lemma UnmeasuredAgrees(db: Db, anc: Db, b: Batch, es: seq<Entry>, n: nat)
    requires n < |es| && !Dated(b, es[n])
    requires PendingBetween(db, anc, b, es, n) && MeasuresAgree(db, anc, b, es, n)
    ensures PendingAgrees(db, anc, b, es, n + 1) && MeasuresAgree(db, anc, b, es, n + 1) && !ClashesAt(db, b, es, n)
  {
    forall f | Dated(b, f) && AdOf(anc, b, f).Some?
      ensures Find(anc.pending, MetricWrite(anc, b, f).key).Some? <==> OpenAbout(db, b, es, f, n + 1, n + 1)
    {
      assert OpenAbout(db, b, es, f, n + 1, n + 1) <==> OpenAbout(db, b, es, f, n, n + 1);
    }
  }

  lemma ClashIsPending(db: Db, anc: Db, b: Batch, es: seq<Entry>, n: nat)
    requires n < |es| && Dated(b, es[n]) && AdOf(anc, b, es[n]).Some? && !HasRepeats(AllMetrics(anc))
    requires PendingBetween(db, anc, b, es, n)
    ensures var w := MetricWrite(anc, b, es[n]);
            ClashesAt(db, b, es, n) <==> Find(anc.metrics, w.key).None? && Find(anc.pending, w.key).Some?
  {
    var w := MetricWrite(anc, b, es[n]);
    if Find(anc.metrics, w.key).Some? && Find(anc.pending, w.key).Some? {
      BothIsRepeat(anc, w.key);
    }
    ClashIsOpen(db, b, es, n);
  }

  lemma BothIsRepeat(db: Db, k: MetricKey)
    requires Find(db.metrics, k).Some? && Find(db.pending, k).Some?
    ensures HasRepeats(AllMetrics(db))
  {
    var i, j := Find(db.metrics, k).value, |db.metrics| + Find(db.pending, k).value;
    assert AllMetrics(db)[i].key == AllMetrics(db)[j].key;
  }

  lemma ClashIsOpen(db: Db, b: Batch, es: seq<Entry>, n: nat)
    requires n < |es| && Dated(b, es[n])
    ensures ClashesAt(db, b, es, n) <==> OpenAbout(db, b, es, es[n], n, n + 1)
  {
    OpenAboutAfterRow(db, b, es, es[n], n);
    if OpenAbout(db, b, es, es[n], n, n) {
      var i :| 0 <= i < n && SameMeasure(b, es[i], es[n]) && Open(db, b, es, i, n);
      assert Clash(db, b, es, i, n) && SamePath(es[i], es[n]);
    }
  }

  ghost predicate ClashesBefore(db: Db, b: Batch, es: seq<Entry>, n: nat)
    requires n <= |es|
  {
    exists j :: 0 <= j < n && ClashesAt(db, b, es, j)
  }

  ghost predicate Broken(p: Progress) {
    p.Conflict? || (p.Going? && HasRepeats(AllMetrics(p.db)))
  }

  lemma BrokenStaysBroken(p: Db, count: nat, b: Batch, e: Entry)
    requires HasRepeats(AllMetrics(p)) && (Measured(e) ==> Dated(b, e))
    ensures Broken(SyncRow(p, count, b, e))
  {
    if SyncRow(p, count, b, e).Going? {
      SyncRowIsPuts(p, count, b, e);
      GrownTransitive(p, p, SyncRow(p, count, b, e).db);
    }
  }

  ghost predicate PrefixVerdict(db: Db, b: Batch, es: seq<Entry>, n: nat, p: Progress)
    requires n <= |es|
  {
    if ClashesBefore(db, b, es, n) then Broken(p) else p.Going? && Agrees(db, p.db, b, es, n)
  }

  function Next(p: Progress, b: Batch, e: Entry): Progress {
    if p.Going? then SyncRow(p.db, p.count, b, e) else p
  }

  lemma BrokenNext(p: Progress, b: Batch, e: Entry)
    requires Broken(p) && (Measured(e) ==> Dated(b, e))
    ensures Broken(Next(p, b, e))
  {
    if p.Going? {
      BrokenStaysBroken(p.db, p.count, b, e);
    }
  }

  lemma VerdictOneMore(db: Db, b: Batch, es: seq<Entry>, n: nat, p: Progress)
    requires n < |es| && PrefixVerdict(db, b, es, n, p) && (Measured(es[n]) ==> Dated(b, es[n]))
    ensures PrefixVerdict(db, b, es, n + 1, Next(p, b, es[n]))
  {
    ClashesOneMore(db, b, es, n);
    if ClashesBefore(db, b, es, n) {
      BrokenNext(p, b, es[n]);
    } else {
      RowAgrees(db, p.db, p.count, b, es, n);
    }
  }

  lemma ClashesOneMore(db: Db, b: Batch, es: seq<Entry>, n: nat)
    requires n < |es|
    ensures ClashesBefore(db, b, es, n + 1) <==> ClashesBefore(db, b, es, n) || ClashesAt(db, b, es, n)
  {
  }

  lemma {:induction false} PrefixAgrees(db: Db, b: Batch, es: seq<Entry>, n: nat)
    requires n <= |es|
    requires Intact(db) && db.pending == [] && Unique(db.metrics)
    requires forall k | 0 <= k < |es| && Measured(es[k]) :: Dated(b, es[k])
    ensures PrefixVerdict(db, b, es, n, SyncRows(db, b, es[..n]))
  {
    if n == 0 {
      AgreesAtStart(db, b, es);
    } else {
      PrefixAgrees(db, b, es, n - 1);
      assert es[..n][..n - 1] == es[..n - 1];
      VerdictOneMore(db, b, es, n - 1, SyncRows(db, b, es[..n - 1]));
    }
  }

  /** A batch whose dates all parse breaks the uniqueness of metrics exactly when two of its
      rows are about one ad and day that is not stored yet, with no row between them that
      names an ad for the first time. */
  lemma ConflictExactlyAtClash(db: Db, b: Batch, es: seq<Entry>)
    requires Intact(db) && db.pending == [] && Unique(db.metrics)
    requires forall k | 0 <= k < |es| && Measured(es[k]) :: Dated(b, es[k])
    ensures Sync(db, b, es).Conflict? <==> exists i, j :: 0 <= i < j < |es| && Clash(db, b, es, i, j)
    ensures Sync(db, b, es).Conflict? || Sync(db, b, es).Going?
  {
    PrefixAgrees(db, b, es, |es|);
    assert es[..|es|] == es;
    assert ClashesBefore(db, b, es, |es|) <==> exists i, j :: 0 <= i < j < |es| && Clash(db, b, es, i, j) by {
      forall i, j | 0 <= i < j < |es| && Clash(db, b, es, i, j) ensures ClashesBefore(db, b, es, |es|) {
        assert ClashesAt(db, b, es, j);
      }
    }
  }

  /** In particular a batch that measures no ad twice on one day always goes through. */
  lemma DistinctRowsNeverConflict(db: Db, b: Batch, es: seq<Entry>)
    requires Intact(db) && db.pending == [] && Unique(db.metrics)
    requires forall k | 0 <= k < |es| && Measured(es[k]) :: Dated(b, es[k])
    requires forall i, j | 0 <= i < j < |es| :: !SameMeasure(b, es[i], es[j])
    ensures Sync(db, b, es).Going?
  {
    ConflictExactlyAtClash(db, b, es);
  }

  const EMPTY := AdStore.Db([], [], [], [], [])

  /** The failing case in its smallest form: on empty tables, two rows about one ad and day.  A row
      that names another ad between them makes the session flush, and the same two rows go through. */
  lemma TwoRowsOfOneDay(b: Batch, e: Entry, f: Entry, between: Entry)
    requires SameMeasure(b, e, f)
    requires Named(between) && !SamePath(e, between) && (Measured(between) ==> Dated(b, between))
    ensures Sync(EMPTY, b, [e, f]).Conflict?
    ensures Sync(EMPTY, b, [e, between, f]).Going?
  {
    ConflictExactlyAtClash(EMPTY, b, [e, f]);
    assert Clash(EMPTY, b, [e, f], 0, 1);
    var es := [e, between, f];
    ConflictExactlyAtClash(EMPTY, b, es);
    assert !Known(EMPTY, b, es, 1);
    assert !Open(EMPTY, b, es, 0, 2);
    forall i, j | 0 <= i < j < |es| ensures !Clash(EMPTY, b, es, i, j) {
    }
  }

  lemma ConflictWitness()
    ensures var b := Batch(0, Meta, _ => Some(0));
            var row := Entry("c", "", "g", "", "a", "", "2024-01-01", Values(1, 1, 1, 1, 1, 1, 1, None));
            Sync(EMPTY, b, [row, row]).Conflict?
  {
    var b := Batch(0, Meta, _ => Some(0));
    var row := Entry("c", "", "g", "", "a", "", "2024-01-01", Values(1, 1, 1, 1, 1, 1, 1, None));
    TwoRowsOfOneDay(b, row, row, row.(ad := "b"));
  }
}
