/** Exactly when any batch breaks the uniqueness of daily metrics, dates that do not parse included.

    A clash is only noticed at the next flush: at a later row that names a new ad, or at the end.  A
    measured row whose date does not parse stops the batch before the end, after its own ad was looked
    up or created. */
module AdConflictDates {
  import opened Common
  import opened Tables
  import opened AdStore
  import opened AdSync
  import opened AdSyncLaws
  import opened AdSyncTheorems
  import opened AdConflict

  /** The row raises: it is measured and its date does not parse. */
  predicate Unparsed(b: Batch, e: Entry) {
    Measured(e) && !Dated(b, e)
  }

  /** Row `m` names an ad for the first time, and so makes the session flush. */
  ghost predicate Flushes(db: Db, b: Batch, es: seq<Entry>, m: nat)
    requires m < |es|
  {
    Named(es[m]) && !Known(db, b, es, m)
  }

  /** Before row `n` there is a clash and, after it, a flush. */
  ghost predicate FlushedClash(db: Db, b: Batch, es: seq<Entry>, n: nat)
    requires n <= |es|
  {
    exists m: nat :: m < n && ClashesBefore(db, b, es, m) && Flushes(db, b, es, m)
  }

  lemma FlushedClashOneMore(db: Db, b: Batch, es: seq<Entry>, n: nat)
    requires n < |es|
    ensures FlushedClash(db, b, es, n + 1) <==>
            FlushedClash(db, b, es, n) || (ClashesBefore(db, b, es, n) && Flushes(db, b, es, n))
  {
  }

  // ---- A session with a repeat pending -------------------------------------------------------------

  lemma RepeatStopsNewAd(mid: Db, b: Batch, e: Entry)
    requires HasRepeats(AllMetrics(mid)) && AdOf(mid, b, e).None?
    ensures WithAncestors(mid, b, e).None?
  {
    var k := CampaignKeyOf(b, e);
    PutFacts(mid.campaigns, k, NEW_CAMPAIGN, e.campaignName);
    var db1 := mid.(campaigns := Put(mid.campaigns, k, NEW_CAMPAIGN, e.campaignName));
    assert AllMetrics(db1) == AllMetrics(mid);
    if Find(mid.campaigns, k).Some? {
      var c := Find(mid.campaigns, k).value;
      RepeatStopsNewGroupOrAd(db1, c, e);
    }
  }

  lemma RepeatStopsNewGroupOrAd(mid: Db, c: nat, e: Entry)
    requires HasRepeats(AllMetrics(mid))
    requires Find(mid.groups, GroupKey(c, e.group)).Some? ==> Find(mid.ads, AdKey(Find(mid.groups, GroupKey(c, e.group)).value, e.ad)).None?
    ensures WithGroupAndAd(mid, c, e).None?
  {
    var k := GroupKey(c, e.group);
    PutFacts(mid.groups, k, ActiveEntity, e.groupName);
    var db1 := mid.(groups := Put(mid.groups, k, ActiveEntity, e.groupName));
    assert AllMetrics(db1) == AllMetrics(mid);
    if Find(mid.groups, k).Some? {
      var g := Find(mid.groups, k).value;
      var db2 := db1.(ads := Put(db1.ads, AdKey(g, e.ad), ActiveEntity, e.adName));
      assert AllMetrics(db2) == AllMetrics(mid);
    }
  }

  lemma KnownExactly(db: Db, mid: Db, b: Batch, es: seq<Entry>, n: nat)
    requires n < |es| && PathsAgree(db, mid, b, es, n)
    ensures Known(db, b, es, n) <==> AdOf(mid, b, es[n]).Some?
  {
  }

  ghost predicate Clashed(db: Db, mid: Db, b: Batch, es: seq<Entry>, n: nat)
    requires n <= |es|
  {
    HasRepeats(AllMetrics(mid)) && Intact(mid) && PathsAgree(db, mid, b, es, n)
  }

  /** After a row that does not stop the batch the hierarchy is again in order. */
  lemma RowKeepsPaths(db: Db, mid: Db, count: nat, b: Batch, es: seq<Entry>, n: nat)
    requires n < |es| && Intact(mid) && PathsAgree(db, mid, b, es, n) && SyncRow(mid, count, b, es[n]).Going?
    ensures var after := SyncRow(mid, count, b, es[n]).db;
            Intact(after) && PathsAgree(db, after, b, es, n + 1)
  {
    var after := SyncRow(mid, count, b, es[n]).db;
    SyncRowIsPuts(mid, count, b, es[n]);
    RowKeepsIntact(mid, after, b, es[n]);
    if Named(es[n]) {
      PathsAgreeAfter(db, mid, after, b, es, n);
    } else {
      UnnamedKeepsPaths(db, mid, b, es, n);
    }
  }

  lemma UnnamedKeepsPaths(db: Db, mid: Db, b: Batch, es: seq<Entry>, n: nat)
    requires n < |es| && !Named(es[n]) && PathsAgree(db, mid, b, es, n)
    ensures PathsAgree(db, mid, b, es, n + 1)
  {
  }

  lemma RowKeepsRepeats(mid: Db, count: nat, b: Batch, e: Entry)
    requires HasRepeats(AllMetrics(mid)) && SyncRow(mid, count, b, e).Going?
    ensures HasRepeats(AllMetrics(SyncRow(mid, count, b, e).db))
  {
    SyncRowIsPuts(mid, count, b, e);
    GrownTransitive(mid, mid, SyncRow(mid, count, b, e).db);
  }

  /** A row after a clash: it stops the batch exactly when it flushes, or raises. */
  lemma RowAfterClash(db: Db, mid: Db, count: nat, b: Batch, es: seq<Entry>, n: nat)
    requires n < |es| && Clashed(db, mid, b, es, n)
    ensures var p := SyncRow(mid, count, b, es[n]);
            if Flushes(db, b, es, n) then p.Conflict?
            else if Unparsed(b, es[n]) then p.BadDate?
            else p.Going? && Clashed(db, p.db, b, es, n + 1)
  {
    KnownExactly(db, mid, b, es, n);
    if Named(es[n]) && !Known(db, b, es, n) {
      RepeatStopsNewAd(mid, b, es[n]);
    } else {
      if Named(es[n]) {
        ReAncestors(mid, b, es[n]);
        AncestorsArePuts(mid, b, es[n]);
      }
      if !Unparsed(b, es[n]) {
        RowKeepsPaths(db, mid, count, b, es, n);
        RowKeepsRepeats(mid, count, b, es[n]);
      }
    }
  }

  // ---- What has become of a prefix -----------------------------------------------------------------

  ghost predicate Fate(db: Db, b: Batch, es: seq<Entry>, n: nat, p: Progress)
    requires n <= |es|
  {
    if FlushedClash(db, b, es, n) then p.Conflict?
    else if ClashesBefore(db, b, es, n) then p.Going? && Clashed(db, p.db, b, es, n)
    else p.Going? && Agrees(db, p.db, b, es, n)
  }

  lemma FateBeforeClash(db: Db, mid: Db, count: nat, b: Batch, es: seq<Entry>, n: nat)
    requires n < |es| && Agrees(db, mid, b, es, n) && !Unparsed(b, es[n])
    ensures var p := SyncRow(mid, count, b, es[n]);
            && p.Going?
            && if ClashesAt(db, b, es, n) then Clashed(db, p.db, b, es, n + 1) else Agrees(db, p.db, b, es, n + 1)
  {
    RowAgrees(db, mid, count, b, es, n);
    RowKeepsPaths(db, mid, count, b, es, n);
  }

  lemma NothingFlushedBeforeClash(db: Db, b: Batch, es: seq<Entry>, n: nat)
    requires n <= |es| && !ClashesBefore(db, b, es, n)
    ensures !FlushedClash(db, b, es, n)
  {
    forall m: nat | m < n ensures !ClashesBefore(db, b, es, m) {
    }
  }

  lemma FateOneMore(db: Db, b: Batch, es: seq<Entry>, n: nat, p: Progress)
    requires n < |es| && Fate(db, b, es, n, p) && !Unparsed(b, es[n])
    ensures Fate(db, b, es, n + 1, Next(p, b, es[n]))
  {
    ClashesOneMore(db, b, es, n);
    FlushedClashOneMore(db, b, es, n);
    if !FlushedClash(db, b, es, n) {
      if ClashesBefore(db, b, es, n) {
        RowAfterClash(db, p.db, p.count, b, es, n);
      } else {
        FateBeforeClash(db, p.db, p.count, b, es, n);
      }
    }
  }

  lemma {:induction false} Fates(db: Db, b: Batch, es: seq<Entry>, n: nat)
    requires n <= |es|
    requires Intact(db) && db.pending == [] && Unique(db.metrics)
    requires forall k | 0 <= k < n :: !Unparsed(b, es[k])
    ensures Fate(db, b, es, n, SyncRows(db, b, es[..n]))
  {
    if n == 0 {
      AgreesAtStart(db, b, es);
    } else {
      Fates(db, b, es, n - 1);
      assert es[..n][..n - 1] == es[..n - 1];
      FateOneMore(db, b, es, n - 1, SyncRows(db, b, es[..n - 1]));
    }
  }

  // ---- The first row that raises -------------------------------------------------------------------

  lemma RaisingRow(db: Db, p: Progress, b: Batch, es: seq<Entry>, k: nat)
    requires k < |es| && Fate(db, b, es, k, p) && p.Going? && Unparsed(b, es[k])
    ensures var q := SyncRow(p.db, p.count, b, es[k]);
            if FlushedClash(db, b, es, k + 1) then q.Conflict? else q.BadDate?
  {
    FlushedClashOneMore(db, b, es, k);
    if ClashesBefore(db, b, es, k) {
      RowAfterClash(db, p.db, p.count, b, es, k);
    } else {
      AncestorsFlush(p.db, b, es[k]);
    }
  }

  /** With a first row `k` that raises, the batch conflicts exactly when a clash was flushed by then. */
  lemma UntilFirstUnparsed(db: Db, b: Batch, es: seq<Entry>, k: nat)
    requires Intact(db) && db.pending == [] && Unique(db.metrics)
    requires k < |es| && Unparsed(b, es[k]) && forall l | 0 <= l < k :: !Unparsed(b, es[l])
    ensures if FlushedClash(db, b, es, k + 1) then Sync(db, b, es).Conflict? else Sync(db, b, es).BadDate?
  {
    Fates(db, b, es, k);
    FlushedClashOneMore(db, b, es, k);
    var p := SyncRows(db, b, es[..k]);
    if p.Going? {
      RaisingRow(db, p, b, es, k);
      RowDecides(db, b, es, k, p.db, p.count);
    } else {
      StoppedStaysStopped(db, b, es, k);
    }
  }

  // ---- Any batch -----------------------------------------------------------------------------------

  /** A clash before row `j` is noticed: by a flush before any row raises, or at the end of a batch in
      which none does. */
  ghost predicate Noticed(db: Db, b: Batch, es: seq<Entry>, j: nat) {
    || (forall l | 0 <= l < |es| :: !Unparsed(b, es[l]))
    || exists m: nat :: j < m < |es| && FlushesInTime(db, b, es, m)
  }

  ghost predicate FlushesInTime(db: Db, b: Batch, es: seq<Entry>, m: nat)
    requires m < |es|
  {
    Flushes(db, b, es, m) && forall l | 0 <= l < m :: !Unparsed(b, es[l])
  }

  ghost predicate NoticedClash(db: Db, b: Batch, es: seq<Entry>) {
    exists j: nat :: j < |es| && ClashesAt(db, b, es, j) && Noticed(db, b, es, j)
  }

  lemma {:induction false} FirstUnparsed(b: Batch, es: seq<Entry>, n: nat) returns (k: nat)
    requires n <= |es| && exists l :: 0 <= l < n && Unparsed(b, es[l])
    ensures k < n && Unparsed(b, es[k]) && forall l | 0 <= l < k :: !Unparsed(b, es[l])
  {
    if l :| 0 <= l < n - 1 && Unparsed(b, es[l]) {
      k := FirstUnparsed(b, es, n - 1);
    } else {
      k := n - 1;
    }
  }

  lemma NoticedIsFlushed(db: Db, b: Batch, es: seq<Entry>, k: nat)
    requires k < |es| && Unparsed(b, es[k]) && forall l | 0 <= l < k :: !Unparsed(b, es[l])
    ensures NoticedClash(db, b, es) <==> FlushedClash(db, b, es, k + 1)
  {
    if NoticedClash(db, b, es) {
      var j: nat :| j < |es| && ClashesAt(db, b, es, j) && Noticed(db, b, es, j);
      var m: nat :| j < m < |es| && FlushesInTime(db, b, es, m);
      assert ClashesBefore(db, b, es, m) && Flushes(db, b, es, m);
    }
    if FlushedClash(db, b, es, k + 1) {
      var m: nat :| m < k + 1 && ClashesBefore(db, b, es, m) && Flushes(db, b, es, m);
      var j: nat :| j < m && ClashesAt(db, b, es, j);
      assert FlushesInTime(db, b, es, m);
      assert Noticed(db, b, es, j);
    }
  }

  /** Any batch violates the constraint if and only if it has a clash that is noticed before a row
      raises; otherwise it raises at the first date that does not parse, or completes. */
  lemma ConflictExactlyAtNoticedClash(db: Db, b: Batch, es: seq<Entry>)
    requires Intact(db) && db.pending == [] && Unique(db.metrics)
    ensures Sync(db, b, es).Conflict? <==> NoticedClash(db, b, es)
    ensures !Sync(db, b, es).Conflict? ==>
              if exists l :: 0 <= l < |es| && Unparsed(b, es[l]) then Sync(db, b, es).BadDate? else Sync(db, b, es).Going?
  {
    if exists l :: 0 <= l < |es| && Unparsed(b, es[l]) {
      var k := FirstUnparsed(b, es, |es|);
      UntilFirstUnparsed(db, b, es, k);
      NoticedIsFlushed(db, b, es, k);
    } else {
      ConflictExactlyAtClash(db, b, es);
      ClashesAreClashes(db, b, es);
    }
  }

  lemma ClashesAreClashes(db: Db, b: Batch, es: seq<Entry>)
    requires forall l | 0 <= l < |es| :: !Unparsed(b, es[l])
    ensures NoticedClash(db, b, es) <==> exists i, j :: 0 <= i < j < |es| && Clash(db, b, es, i, j)
  {
    forall i, j | 0 <= i < j < |es| && Clash(db, b, es, i, j) ensures NoticedClash(db, b, es) {
      assert ClashesAt(db, b, es, j) && Noticed(db, b, es, j);
    }
  }
}
