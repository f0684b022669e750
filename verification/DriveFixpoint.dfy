/** A second sync of the same listing creates nothing, marks nothing missing and changes no asset
    but for the time it was verified. */
module DriveFixpoint {
  import opened Common
  import opened Drive
  import opened DriveLaws

  // ---- What a column ends up holding -------------------------------------------------------------

  /** The last value that the entries with id `id` give a column, or else the one there was. */
  function Last<T>(es: seq<File>, id: string, column: File -> Option<T>, before: T): T {
    if es == [] then before
    else
      var e := es[|es| - 1];
      if e.id == id && column(e).Some? then column(e).value else Last(es[..|es| - 1], id, column, before)
  }

  lemma {:induction false} LastKeepsOrForgets<T>(es: seq<File>, id: string, column: File -> Option<T>, x: T, y: T)
    ensures Last(es, id, column, x) == Last(es, id, column, y) || (Last(es, id, column, x) == x && Last(es, id, column, y) == y)
  {
    if es != [] {
      LastKeepsOrForgets(es[..|es| - 1], id, column, x, y);
    }
  }

  lemma LastTwice<T>(es: seq<File>, id: string, column: File -> Option<T>, x: T)
    ensures Last(es, id, column, Last(es, id, column, x)) == Last(es, id, column, x)
  {
    LastKeepsOrForgets(es, id, column, x, Last(es, id, column, x));
  }

  function NameIn(e: File): Option<string> {
    Some(DisplayName(Default(e.name, "Untitled")))
  }

  function MimeIn(e: File): Option<Option<string>> {
    Some(Some(Default(e.mimeType, "")))
  }

  function SizeIn(e: File): Option<Option<int>> {
    if Default(e.size, 0) != 0 then Some(Some(Default(e.size, 0))) else None
  }

  function UrlIn(e: File): Option<Option<string>> {
    if Given(e.webViewLink) then Some(e.webViewLink) else None
  }

  function ThumbnailIn(e: File): Option<Option<string>> {
    if Given(e.thumbnailLink) then Some(e.thumbnailLink) else None
  }

  /** An asset but for the time it was verified. */
  function Content(a: Asset): Asset {
    a.(lastVerifiedAt := None)
  }

  function Refreshed(a: Asset, es: seq<File>, id: string): Asset {
    a.(name := Last(es, id, NameIn, a.name),
    mimeType := Last(es, id, MimeIn, a.mimeType),
    fileSize := Last(es, id, SizeIn, a.fileSize),
    driveUrl := Last(es, id, UrlIn, a.driveUrl),
    thumbnailUrl := Last(es, id, ThumbnailIn, a.thumbnailUrl),
    status := if id in Ids(es) then Active else a.status,
    lastVerifiedAt := None)
  }

  lemma {:induction false} FinalIsRefreshed(a: Asset, es: seq<File>, id: string, now: Time)
    ensures Final(Some(a), es, id, now).Some? && Content(Final(Some(a), es, id, now).value) == Refreshed(a, es, id)
  {
    if es != [] {
      FinalIsRefreshed(a, es[..|es| - 1], id, now);
    }
  }

  lemma RefreshedTwice(a: Asset, es: seq<File>, id: string)
    ensures Refreshed(Refreshed(a, es, id), es, id) == Refreshed(a, es, id)
  {
    LastTwice(es, id, NameIn, a.name);
    LastTwice(es, id, MimeIn, a.mimeType);
    LastTwice(es, id, SizeIn, a.fileSize);
    LastTwice(es, id, UrlIn, a.driveUrl);
    LastTwice(es, id, ThumbnailIn, a.thumbnailUrl);
  }

  /** Creating an asset and going on is updating the created asset from the start. */
  lemma {:induction false} CreatedAsIfUpdated(es: seq<File>, id: string, now: Time) returns (e: File)
    requires id in Ids(es)
    ensures Final(None, es, id, now) == Final(Some(CreateAsset(e, now)), es, id, now)
  {
    var n := |es| - 1;
    if id in Ids(es[..n]) {
      e := CreatedAsIfUpdated(es[..n], id, now);
    } else {
      e := es[n];
      FinalStatus(None, es[..n], id, now);
      FinalStatus(Some(CreateAsset(e, now)), es[..n], id, now);
    }
  }

  /** Going through a listing again changes nothing that going through it once did not. */
  lemma FinalTwice(o: Option<Asset>, es: seq<File>, id: string, now: Time, later: Time)
    requires id in Ids(es)
    ensures var once := Final(o, es, id, now);
            var twice := Final(once, es, id, later);
            once.Some? && twice.Some? && Content(twice.value) == Content(once.value)
  {
    var a: Asset;
    if o.Some? {
      a := o.value;
    } else {
      var e := CreatedAsIfUpdated(es, id, now);
      a := CreateAsset(e, now);
    }
    FinalIsRefreshed(a, es, id, now);
    var once := Final(Some(a), es, id, now).value;
    FinalIsRefreshed(once, es, id, later);
    assert Refreshed(once, es, id) == Refreshed(Content(once), es, id);
    RefreshedTwice(a, es, id);
  }

  // ---- The second sync -----------------------------------------------------------------------------

  /** The asset that a lookup of a listed id finds is, after a sync, the fold of the listing. */
  lemma ListedAfterSync(assets: seq<Asset>, es: seq<File>, now: Time, id: string)
    requires id in Ids(es)
    ensures Lookup(Sync(assets, es, now), id) == Final(Lookup(assets, id), es, id, now)
  {
    var u := UpsertAll(assets, es, now);
    ListedIsFound(assets, es, now, id);
    MarkAllFinds(u, Ids(es), now, id);
    LookupAfter(assets, es, now, id);
  }

  lemma CreatedWasAbsent(assets: seq<Asset>, es: seq<File>, later: Time)
    ensures |UpsertAll(assets, es, later)| == |assets| || exists id :: id in Ids(es) && FindFile(assets, id).None?
  {
    var u := UpsertAll(assets, es, later);
    UpsertAllFacts(assets, es, later);
    if |u| > |assets| {
      var id := u[|assets|].driveFileId.value;
      assert id in Ids(es) && FindFile(assets, id).None?;
    }
  }

  lemma UpsertsCreateNothing(assets: seq<Asset>, es: seq<File>, later: Time)
    requires forall id | id in Ids(es) :: FindFile(assets, id).Some?
    ensures |UpsertAll(assets, es, later)| == |assets|
  {
    CreatedWasAbsent(assets, es, later);
  }

  lemma UpsertsChangeNoContent(assets: seq<Asset>, es: seq<File>, now: Time, later: Time, i: nat)
    requires i < |Sync(assets, es, now)|
    ensures |UpsertAll(Sync(assets, es, now), es, later)| == |Sync(assets, es, now)|
    ensures Content(UpsertAll(Sync(assets, es, now), es, later)[i]) == Content(Sync(assets, es, now)[i])
  {
    var t := Sync(assets, es, now);
    var u := UpsertAll(t, es, later);
    SyncVerdict(assets, es, now);
    UpsertsCreateNothing(t, es, later);
    UpsertAllFacts(t, es, later);
    if u[i] != t[i] {
      var id := t[i].driveFileId.value;
      ListedAfterSync(assets, es, now, id);
      LookupAfter(t, es, later, id);
      FoundStays(t, u, id);
      FinalTwice(Lookup(assets, id), es, id, now, later);
    }
  }

  lemma {:induction false} CountNone(assets: seq<Asset>, ids: set<string>)
    requires forall i | 0 <= i < |assets| :: !Removed(assets[i], ids)
    ensures Count(assets, (a: Asset) => Removed(a, ids)) == 0
  {
    if assets != [] {
      CountNone(assets[..|assets| - 1], ids);
    }
  }

  /** A second sync of the same listing creates nothing, finds nothing missing, and leaves every
      asset as it was but for the time it was verified. */
  lemma SecondSyncIsIdle(assets: seq<Asset>, es: seq<File>, now: Time, later: Time)
    ensures var once := Sync(assets, es, now);
            var twice := Sync(once, es, later);
            && SyncCounts(once, es, later) == Counts(0, |es|, 0)
            && |twice| == |once|
            && forall i | 0 <= i < |once| :: Content(twice[i]) == Content(once[i])
  {
    var once := Sync(assets, es, now);
    var u := UpsertAll(once, es, later);
    SyncVerdict(assets, es, now);
    UpsertsCreateNothing(once, es, later);
    forall i | 0 <= i < |once| ensures Content(u[i]) == Content(once[i]) && !Removed(u[i], Ids(es)) {
      UpsertsChangeNoContent(assets, es, now, later, i);
      MarkedIsNotRemoved(UpsertAll(assets, es, now)[i], Ids(es), now);
      RemovedLooksAtContent(u[i], once[i], Ids(es));
    }
    CountNone(u, Ids(es));
  }

  lemma MarkedIsNotRemoved(a: Asset, ids: set<string>, now: Time)
    ensures !Removed(Mark(a, ids, now), ids)
  {
  }

  lemma RemovedLooksAtContent(a: Asset, b: Asset, ids: set<string>)
    requires Content(a) == Content(b)
    ensures Removed(a, ids) == Removed(b, ids)
  {
    assert a.status == Content(a).status && a.driveFileId == Content(a).driveFileId;
    assert b.status == Content(b).status && b.driveFileId == Content(b).driveFileId;
  }
}
