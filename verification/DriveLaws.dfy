/** What a Drive sync leaves: statuses that agree with the listing, and nothing more to do. */
module DriveLaws {
  import opened Common
  import opened Text
  import opened Drive

  function Lookup(assets: seq<Asset>, id: string): Option<Asset> {
    match FindFile(assets, id)
    case None => None
    case Some(i) => Some(assets[i])
  }

  function Touch(o: Option<Asset>, e: File, now: Time): Asset {
    match o
    case None => CreateAsset(e, now)
    case Some(a) => UpdateAsset(a, e, now)
  }

  /** What a listing makes of the asset with id `id`. */
  function Final(o: Option<Asset>, es: seq<File>, id: string, now: Time): Option<Asset> {
    if es == [] then o
    else
      var before := Final(o, es[..|es| - 1], id, now);
      if es[|es| - 1].id == id then Some(Touch(before, es[|es| - 1], now)) else before
  }

  ghost predicate UniqueIds(assets: seq<Asset>) {
    forall i, j | 0 <= i < j < |assets| && assets[i].driveFileId.Some? :: assets[i].driveFileId != assets[j].driveFileId
  }

  /** Assets stay in place and keep their Drive id. */
  ghost predicate SameIds(before: seq<Asset>, after: seq<Asset>) {
    |before| <= |after| && forall i | 0 <= i < |before| :: after[i].driveFileId == before[i].driveFileId
  }

  lemma FoundStays(before: seq<Asset>, after: seq<Asset>, id: string)
    requires SameIds(before, after) && FindFile(before, id).Some?
    ensures FindFile(after, id) == FindFile(before, id)
  {
  }

  lemma UpsertFacts(assets: seq<Asset>, e: File, now: Time)
    ensures var after := Upsert(assets, e, now);
            && SameIds(assets, after)
            && (UniqueIds(assets) ==> UniqueIds(after))
            && Lookup(after, e.id) == Some(Touch(Lookup(assets, e.id), e, now))
            && (forall i | 0 <= i < |assets| && FindFile(assets, e.id) != Some(i) :: after[i] == assets[i])
            && (forall i | |assets| <= i < |after| :: after[i].driveFileId == Some(e.id))
  {
    var after := Upsert(assets, e, now);
    match FindFile(assets, e.id)
    case Some(i) => FoundStays(assets, after, e.id);
    case None =>
      assert after[|assets|].driveFileId == Some(e.id);
      assert forall i | 0 <= i < |assets| :: after[i] == assets[i];
      assert FindFile(after, e.id) == Some(|assets|);
  }

  lemma OtherLookupsStay(assets: seq<Asset>, e: File, now: Time, id: string)
    requires id != e.id
    ensures Lookup(Upsert(assets, e, now), id) == Lookup(assets, id)
  {
    var after := Upsert(assets, e, now);
    UpsertFacts(assets, e, now);
    match FindFile(assets, id)
    case Some(i) => FoundStays(assets, after, id);
    case None => assert forall i | 0 <= i < |after| :: after[i].driveFileId != Some(id);
  }

  /** A lookup after the upserts is the fold of the entries with that id. */
  lemma {:induction false} LookupAfter(assets: seq<Asset>, es: seq<File>, now: Time, id: string)
    ensures Lookup(UpsertAll(assets, es, now), id) == Final(Lookup(assets, id), es, id, now)
  {
    if es != [] {
      var n := |es| - 1;
      LookupAfter(assets, es[..n], now, id);
      UpsertFacts(UpsertAll(assets, es[..n], now), es[n], now);
      if es[n].id != id {
        OtherLookupsStay(UpsertAll(assets, es[..n], now), es[n], now, id);
      }
    }
  }

  /** An asset that a lookup does not find is left alone, among them every asset without a Drive id. */
  ghost predicate OthersAlone(assets: seq<Asset>, after: seq<Asset>, ids: set<string>) {
    && |assets| <= |after|
    && (forall i | 0 <= i < |assets| :: after[i] == assets[i] || (assets[i].driveFileId.Some? && assets[i].driveFileId.value in ids
                                                                  && FindFile(assets, assets[i].driveFileId.value) == Some(i)))
    && (forall i | |assets| <= i < |after| :: after[i].driveFileId.Some? && after[i].driveFileId.value in ids
                                              && FindFile(assets, after[i].driveFileId.value).None?)
  }

  lemma {:induction false} UpsertAllFacts(assets: seq<Asset>, es: seq<File>, now: Time)
    ensures SameIds(assets, UpsertAll(assets, es, now))
    ensures UniqueIds(assets) ==> UniqueIds(UpsertAll(assets, es, now))
    ensures OthersAlone(assets, UpsertAll(assets, es, now), Ids(es))
  {
    if es != [] {
      var n := |es| - 1;
      UpsertAllFacts(assets, es[..n], now);
      var middle := UpsertAll(assets, es[..n], now);
      UpsertFacts(middle, es[n], now);
      AloneStep(assets, middle, es[n], now, Ids(es[..n]));
    }
  }

  lemma AloneStep(assets: seq<Asset>, middle: seq<Asset>, e: File, now: Time, ids: set<string>)
    requires SameIds(assets, middle) && OthersAlone(assets, middle, ids)
    ensures OthersAlone(assets, Upsert(middle, e, now), ids + {e.id})
  {
    var after := Upsert(middle, e, now);
    UpsertFacts(middle, e, now);
    forall i | 0 <= i < |assets| && after[i] != assets[i]
      ensures assets[i].driveFileId.Some? && assets[i].driveFileId.value in ids + {e.id}
              && FindFile(assets, assets[i].driveFileId.value) == Some(i)
    {
      if FindFile(middle, e.id) == Some(i) {
        assert assets[i].driveFileId == Some(e.id);
        FoundStays(assets, middle, e.id);
      }
    }
    forall i | |assets| <= i < |after|
      ensures after[i].driveFileId.Some? && after[i].driveFileId.value in ids + {e.id}
              && FindFile(assets, after[i].driveFileId.value).None?
    {
      if i < |middle| {
        assert after[i].driveFileId == middle[i].driveFileId;
      } else if FindFile(assets, e.id).Some? {
        FoundStays(assets, middle, e.id);
      }
    }
  }

  lemma {:induction false} FinalStatus(o: Option<Asset>, es: seq<File>, id: string, now: Time)
    ensures id in Ids(es) ==> Final(o, es, id, now).Some? && Final(o, es, id, now).value.status.Active?
    ensures id !in Ids(es) ==> Final(o, es, id, now) == o
  {
    if es != [] {
      FinalStatus(o, es[..|es| - 1], id, now);
    }
  }

  lemma ListedIsFound(assets: seq<Asset>, es: seq<File>, now: Time, id: string)
    requires id in Ids(es)
    ensures FindFile(UpsertAll(assets, es, now), id).Some?
    ensures Lookup(UpsertAll(assets, es, now), id).value.status.Active?
  {
    LookupAfter(assets, es, now, id);
    FinalStatus(Lookup(assets, id), es, id, now);
  }

  // ---- The first sync ------------------------------------------------------------------------------

  lemma MarkAllFinds(assets: seq<Asset>, ids: set<string>, now: Time, id: string)
    ensures FindFile(MarkAll(assets, ids, now), id) == FindFile(assets, id)
  {
    var after := MarkAll(assets, ids, now);
    assert forall i | 0 <= i < |assets| :: after[i].driveFileId == assets[i].driveFileId;
    match FindFile(after, id)
    case Some(i) => assert assets[i].driveFileId == Some(id);
    case None =>
  }

  /** Whether asset `i` ends a sync active: its id is listed, and it is new, or the asset that a
      lookup of that id finds, or was active all along. */
  predicate EndsActive(assets: seq<Asset>, ids: set<string>, i: nat, id: string) {
    && id in ids
    && (i >= |assets| || FindFile(assets, id) == Some(i) || assets[i].status.Active?)
  }

  lemma StatusAfterSync(assets: seq<Asset>, es: seq<File>, now: Time, i: nat)
    requires i < |Sync(assets, es, now)| && Sync(assets, es, now)[i].driveFileId.Some?
    ensures Sync(assets, es, now)[i].status.Active? <==> EndsActive(assets, Ids(es), i, Sync(assets, es, now)[i].driveFileId.value)
  {
    var u := UpsertAll(assets, es, now);
    var id := u[i].driveFileId.value;
    UpsertAllFacts(assets, es, now);
    if id in Ids(es) {
      ListedIsFound(assets, es, now, id);
      if i >= |assets| {
        NewAssetIsFound(assets, es, now, i);
      } else if FindFile(assets, id) == Some(i) {
        FoundStays(assets, u, id);
      }
    }
  }

  lemma {:induction false} NewAssetIsFound(assets: seq<Asset>, es: seq<File>, now: Time, i: nat)
    requires |assets| <= i < |UpsertAll(assets, es, now)|
    requires UpsertAll(assets, es, now)[i].driveFileId.Some?
    ensures FindFile(UpsertAll(assets, es, now), UpsertAll(assets, es, now)[i].driveFileId.value) == Some(i)
  {
    var n := |es| - 1;
    var middle := UpsertAll(assets, es[..n], now);
    var after := UpsertAll(assets, es, now);
    UpsertFacts(middle, es[n], now);
    if i < |middle| {
      NewAssetIsFound(assets, es[..n], now, i);
      FoundStays(middle, after, middle[i].driveFileId.value);
    }
  }

  /** Asset `i` of a synced table has just gone missing: it was active and its id is not listed. */
  predicate WentMissing(assets: seq<Asset>, ids: set<string>, i: int) {
    0 <= i < |assets| && Removed(assets[i], ids)
  }

  lemma {:induction false} RemovedAreCounted(assets: seq<Asset>, ids: set<string>)
    ensures Count(assets, (a: Asset) => Removed(a, ids)) == |set i | 0 <= i < |assets| && WentMissing(assets, ids, i)|
  {
    if assets != [] {
      var n := |assets| - 1;
      RemovedAreCounted(assets[..n], ids);
      var few := set i | 0 <= i < |assets[..n]| && WentMissing(assets[..n], ids, i);
      var all := set i | 0 <= i < |assets| && WentMissing(assets, ids, i);
      assert forall i | 0 <= i < n :: assets[..n][i] == assets[i];
      assert n !in few;
      assert all == few + (if Removed(assets[n], ids) then {n} else {});
    }
  }

  /** Only listed assets change before the marking, so those that go missing are old ones. */
  lemma MissingWereThere(assets: seq<Asset>, es: seq<File>, now: Time, i: int)
    ensures WentMissing(UpsertAll(assets, es, now), Ids(es), i) <==> WentMissing(assets, Ids(es), i)
  {
    UpsertAllFacts(assets, es, now);
  }

  lemma MissingCount(assets: seq<Asset>, es: seq<File>, now: Time)
    ensures SyncCounts(assets, es, now).missing == |set i | 0 <= i < |assets| && WentMissing(assets, Ids(es), i)|
  {
    var u := UpsertAll(assets, es, now);
    RemovedAreCounted(u, Ids(es));
    UpsertAllCounts(assets, es, now);
    forall i: int ensures WentMissing(u, Ids(es), i) <==> WentMissing(assets, Ids(es), i) {
      MissingWereThere(assets, es, now, i);
    }
    assert (set i | 0 <= i < |u| && WentMissing(u, Ids(es), i)) == (set i | 0 <= i < |assets| && WentMissing(assets, Ids(es), i));
  }

  lemma SyncKeepsRest(assets: seq<Asset>, es: seq<File>, now: Time)
    ensures var after := Sync(assets, es, now);
            && |after| >= |assets|
            && (UniqueIds(assets) ==> UniqueIds(after))
            && (forall i | 0 <= i < |assets| && assets[i].driveFileId.None? :: after[i] == assets[i])
            && (forall i | |assets| <= i < |after| :: after[i].driveFileId.Some? && after[i].driveFileId.value in Ids(es)
                                                      && FindFile(assets, after[i].driveFileId.value).None?)
  {
    var u := UpsertAll(assets, es, now);
    UpsertAllFacts(assets, es, now);
    assert forall i | 0 <= i < |u| :: Sync(assets, es, now)[i].driveFileId == u[i].driveFileId;
  }

  lemma ListedIsStored(assets: seq<Asset>, es: seq<File>, now: Time, id: string)
    requires id in Ids(es)
    ensures FindFile(Sync(assets, es, now), id).Some?
  {
    ListedIsFound(assets, es, now, id);
    MarkAllFinds(UpsertAll(assets, es, now), Ids(es), now, id);
  }

  /** A sync of any asset table: ids stay unique, assets without a Drive id are untouched, and every
      asset with one is active exactly when `EndsActive` says so; the counts account for every entry,
      every new asset and every asset gone missing. */
  lemma SyncVerdict(assets: seq<Asset>, es: seq<File>, now: Time)
    ensures var after := Sync(assets, es, now);
            var counts := SyncCounts(assets, es, now);
            && (UniqueIds(assets) ==> UniqueIds(after))
            && |after| == |assets| + counts.created
            && counts.created + counts.updated == |es|
            && counts.missing == |set i | 0 <= i < |assets| && WentMissing(assets, Ids(es), i)|
            && (forall i | 0 <= i < |assets| && assets[i].driveFileId.None? :: after[i] == assets[i])
            && (forall i: nat | i < |after| && after[i].driveFileId.Some? ::
                  after[i].status.Active? <==> EndsActive(assets, Ids(es), i, after[i].driveFileId.value))
            && (forall i | |assets| <= i < |after| :: after[i].driveFileId.Some? && after[i].driveFileId.value in Ids(es)
                                                      && FindFile(assets, after[i].driveFileId.value).None?)
            && (forall id | id in Ids(es) :: FindFile(after, id).Some?)
  {
    var after := Sync(assets, es, now);
    SyncKeepsRest(assets, es, now);
    MissingCount(assets, es, now);
    forall i: nat | i < |after| && after[i].driveFileId.Some?
      ensures after[i].status.Active? <==> EndsActive(assets, Ids(es), i, after[i].driveFileId.value)
    {
      StatusAfterSync(assets, es, now, i);
    }
    forall id | id in Ids(es) ensures FindFile(after, id).Some? {
      ListedIsStored(assets, es, now, id);
    }
  }

  /** With unique Drive ids, an asset is active after a sync exactly when its id is listed. */
  lemma ActiveExactlyWhenListed(assets: seq<Asset>, es: seq<File>, now: Time, i: nat)
    requires UniqueIds(assets)
    requires i < |Sync(assets, es, now)| && Sync(assets, es, now)[i].driveFileId.Some?
    ensures Sync(assets, es, now)[i].status.Active? <==> Sync(assets, es, now)[i].driveFileId.value in Ids(es)
  {
    StatusAfterSync(assets, es, now, i);
    UpsertAllFacts(assets, es, now);
    if i < |assets| {
      var id := assets[i].driveFileId.value;
      match FindFile(assets, id)
      case Some(j) => assert assets[j].driveFileId == assets[i].driveFileId;
      case None =>
    }
  }

  /** Without unique ids it fails: of two missing assets with one listed id only the first becomes
      active again. */
  lemma SharedIdStaysMissing(first: Asset, second: Asset, e: File, now: Time)
    requires first.driveFileId == second.driveFileId == Some(e.id)
    requires !second.status.Active?
    ensures |Sync([first, second], [e], now)| == 2 && Sync([first, second], [e], now)[0].status.Active?
    ensures Sync([first, second], [e], now)[1] == second && e.id in Ids([e])
  {
    var assets := [first, second];
    assert FindFile(assets, e.id) == Some(0);
    assert UpsertAll(assets, [], now) == assets && [e][..0] == [];
    assert UpsertAll(assets, [e], now) == Upsert(assets, e, now);
    assert Ids([e]) == Ids([]) + {e.id};
  }
}
