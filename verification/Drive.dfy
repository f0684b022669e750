/** Syncing a Drive folder into the asset table (app/services/drive_service.py). */
module Drive {
  import opened Common
  import opened Text

  type Time = int

  datatype AssetType = Image | Video | Document | Template | BrandGuide

  datatype DriveStatus = Active | Missing | AccessDenied

  datatype Asset = Asset(
    name: string,
    assetType: AssetType,
    driveFileId: Option<string>,
    driveUrl: Option<string>,
    thumbnailUrl: Option<string>,
    mimeType: Option<string>,
    fileSize: Option<int>,
    tags: seq<string>,
    status: DriveStatus,
    lastVerifiedAt: Option<Time>,
    uploadedBy: Option<nat>)

  /** A listing entry; every field but the id may be left out. */
  datatype File = File(
    id: string,
    name: Option<string>,
    mimeType: Option<string>,
    size: Option<int>,
    webViewLink: Option<string>,
    thumbnailLink: Option<string>)

  datatype Page = Page(files: seq<File>, nextPageToken: Option<string>)

  datatype Counts = Counts(created: nat, updated: nat, missing: nat)

  // ---- Names -----------------------------------------------------------------------------------

  function LastIndexOf(s: string, c: char): (i: int)
    ensures -1 <= i < |s|
  {
    if s == "" then -1
    else if s[|s| - 1] == c then |s| - 1
    else LastIndexOf(s[..|s| - 1], c)
  }

  /** `Path(s).name`: the last component that is neither empty nor a dot. */
  function FileName(s: string): string {
    var slash := LastIndexOf(s, '/');
    var last := s[slash + 1..];
    if last != "" && last != "." then last
    else if slash < 0 then ""
    else FileName(s[..slash])
  }

  /** The name without its suffix: a dot that is neither first nor last starts one. */
  function DisplayName(name: string): string {
    if name == "" then "Untitled"
    else
      var file := FileName(name);
      var dot := LastIndexOf(file, '.');
      if 0 < dot < |file| - 1 then file[..dot] else name
  }

  function TypeFor(mimeType: string): AssetType {
    if mimeType in {"image/jpeg", "image/png", "image/gif", "image/webp", "image/svg+xml"} then Image
    else if mimeType in {"video/mp4", "video/quicktime", "video/webm"} then Video
    else Document
  }

  function Default<T>(o: Option<T>, d: T): T {
    match o
    case None => d
    case Some(v) => v
  }

  // ---- One entry ---------------------------------------------------------------------------------

  function CreateAsset(e: File, now: Time): Asset {
    var mime := Default(e.mimeType, "");
    Asset(DisplayName(Default(e.name, "Untitled")), TypeFor(mime), Some(e.id), Some(Default(e.webViewLink, "")),
          e.thumbnailLink, Some(mime), Some(Default(e.size, 0)), [], Active, Some(now), None)
  }

  predicate Given(s: Option<string>) {
    s.Some? && s.value != ""
  }

  function UpdateAsset(a: Asset, e: File, now: Time): Asset {
    a.(name := DisplayName(Default(e.name, "Untitled")),
    mimeType := Some(Default(e.mimeType, "")),
    fileSize := if Default(e.size, 0) != 0 then Some(Default(e.size, 0)) else a.fileSize,
    driveUrl := if Given(e.webViewLink) then e.webViewLink else a.driveUrl,
    thumbnailUrl := if Given(e.thumbnailLink) then e.thumbnailLink else a.thumbnailUrl,
    status := Active,
    lastVerifiedAt := Some(now))
  }

  function FindFile(assets: seq<Asset>, id: string): Option<nat> {
    First(assets, (a: Asset) => a.driveFileId == Some(id))
  }

  function Upsert(assets: seq<Asset>, e: File, now: Time): seq<Asset> {
    match FindFile(assets, e.id)
    case Some(i) => assets[i := UpdateAsset(assets[i], e, now)]
    case None => assets + [CreateAsset(e, now)]
  }

  // ---- A whole listing -----------------------------------------------------------------------------

  function UpsertAll(assets: seq<Asset>, es: seq<File>, now: Time): seq<Asset> {
    if es == [] then assets
    else Upsert(UpsertAll(assets, es[..|es| - 1], now), es[|es| - 1], now)
  }

  function Ids(es: seq<File>): set<string> {
    if es == [] then {} else Ids(es[..|es| - 1]) + {es[|es| - 1].id}
  }

  function Entries(pages: seq<Page>): seq<File> {
    if pages == [] then [] else Entries(pages[..|pages| - 1]) + pages[|pages| - 1].files
  }

  predicate Removed(a: Asset, ids: set<string>) {
    a.driveFileId.Some? && a.status.Active? && a.driveFileId.value !in ids
  }

  function Mark(a: Asset, ids: set<string>, now: Time): Asset {
    if Removed(a, ids) then a.(status := Missing, lastVerifiedAt := Some(now)) else a
  }

  function MarkAll(assets: seq<Asset>, ids: set<string>, now: Time): seq<Asset> {
    seq(|assets|, i requires 0 <= i < |assets| => Mark(assets[i], ids, now))
  }

  function Sync(assets: seq<Asset>, es: seq<File>, now: Time): seq<Asset> {
    MarkAll(UpsertAll(assets, es, now), Ids(es), now)
  }

  function SyncCounts(assets: seq<Asset>, es: seq<File>, now: Time): Counts {
    var upserted := UpsertAll(assets, es, now);
    UpsertAllCounts(assets, es, now);
    Counts(|upserted| - |assets|, |es| - (|upserted| - |assets|), Count(upserted, (a: Asset) => Removed(a, Ids(es))))
  }

  lemma {:induction false} UpsertAllCounts(assets: seq<Asset>, es: seq<File>, now: Time)
    ensures |assets| <= |UpsertAll(assets, es, now)| <= |assets| + |es|
  {
    if es != [] {
      UpsertAllCounts(assets, es[..|es| - 1], now);
    }
  }

  lemma EntriesOneMore(pages: seq<Page>, p: nat)
    requires p < |pages|
    ensures Entries(pages[..p + 1]) == Entries(pages[..p]) + pages[p].files
  {
    assert pages[..p + 1][..p] == pages[..p];
  }

  /** The responses to the requests of one sync, in order: each but the last names a next page. */
  predicate Complete(pages: seq<Page>) {
    && pages != []
    && !Given(pages[|pages| - 1].nextPageToken)
    && forall p | 0 <= p < |pages| - 1 :: Given(pages[p].nextPageToken)
  }

  lemma OneMore(assets: seq<Asset>, es: seq<File>, e: File, now: Time)
    ensures UpsertAll(assets, es + [e], now) == Upsert(UpsertAll(assets, es, now), e, now)
    ensures Ids(es + [e]) == Ids(es) + {e.id}
  {
    assert (es + [e])[..|es|] == es;
  }

  lemma CountOneMore(assets: seq<Asset>, ids: set<string>, i: nat)
    requires i < |assets|
    ensures Count(assets[..i + 1], (a: Asset) => Removed(a, ids)) ==
            Count(assets[..i], (a: Asset) => Removed(a, ids)) + (if Removed(assets[i], ids) then 1 else 0)
  {
    assert assets[..i + 1][..i] == assets[..i];
  }

  /** The running state of a sync that has taken the entries `done`. */
  ghost predicate Reached(start: seq<Asset>, done: seq<File>, now: Time, assets: seq<Asset>, ids: set<string>, counts: Counts) {
    && assets == UpsertAll(start, done, now)
    && ids == Ids(done)
    && |assets| == |start| + counts.created
    && counts.created + counts.updated == |done|
    && counts.missing == 0
  }

  function Counted(assets: seq<Asset>, e: File, counts: Counts): Counts {
    if FindFile(assets, e.id).Some? then counts.(updated := counts.updated + 1) else counts.(created := counts.created + 1)
  }

  lemma ReachedOneMore(start: seq<Asset>, done: seq<File>, e: File, now: Time, assets: seq<Asset>, ids: set<string>, counts: Counts)
    requires Reached(start, done, now, assets, ids, counts)
    ensures Reached(start, done + [e], now, Upsert(assets, e, now), ids + {e.id}, Counted(assets, e, counts))
  {
    OneMore(start, done, e, now);
  }

  class DriveService {
    var assets: seq<Asset>

    constructor ()
      ensures assets == []
    {
      assets := [];
    }

    method UpsertDriveFile(e: File, counts: Counts, now: Time) returns (r: Counts)
      modifies this
      ensures assets == Upsert(old(assets), e, now)
      ensures r == Counted(old(assets), e, counts)
    {
      var existing := FindFile(assets, e.id);
      if existing.Some? {
        var a := assets[existing.value];
        a := a.(name := DisplayName(Default(e.name, "Untitled")));
        a := a.(mimeType := Some(Default(e.mimeType, "")));
        if Default(e.size, 0) != 0 {
          a := a.(fileSize := Some(Default(e.size, 0)));
        }
        if Given(e.webViewLink) {
          a := a.(driveUrl := e.webViewLink);
        }
        if Given(e.thumbnailLink) {
          a := a.(thumbnailUrl := e.thumbnailLink);
        }
        a := a.(status := Active);
        a := a.(lastVerifiedAt := Some(now));
        assets := assets[existing.value := a];
        return counts.(updated := counts.updated + 1);
      }
      assets := assets + [CreateAsset(e, now)];
      return counts.(created := counts.created + 1);
    }

    method MarkRemovedAssets(ids: set<string>, counts: Counts, now: Time) returns (r: Counts)
      modifies this
      ensures assets == MarkAll(old(assets), ids, now)
      ensures r == counts.(missing := counts.missing + Count(old(assets), (a: Asset) => Removed(a, ids)))
    {
      ghost var before := assets;
      r := counts;
      for i := 0 to |assets|
        invariant |assets| == |before|
        invariant forall j | 0 <= j < i :: assets[j] == Mark(before[j], ids, now)
        invariant forall j | i <= j < |before| :: assets[j] == before[j]
        invariant r == counts.(missing := counts.missing + Count(before[..i], (a: Asset) => Removed(a, ids)))
      {
        CountOneMore(before, ids, i);
        var a := assets[i];
        if a.driveFileId.Some? && a.status.Active? && a.driveFileId.value !in ids {
          assets := assets[i := a.(status := Missing, lastVerifiedAt := Some(now))];
          r := r.(missing := r.missing + 1);
        }
      }
      assert before[..|before|] == before;
    }

    method SyncPage(files: seq<File>, ids: set<string>, counts: Counts, now: Time, ghost start: seq<Asset>, ghost seen: seq<File>)
      returns (ids': set<string>, r: Counts)
      requires Reached(start, seen, now, assets, ids, counts)
      modifies this
      ensures Reached(start, seen + files, now, assets, ids', r)
    {
      ids', r := ids, counts;
      ghost var done := seen;
      for k := 0 to |files|
        invariant done == seen + files[..k]
        invariant Reached(start, done, now, assets, ids', r)
      {
        var e := files[k];
        ReachedOneMore(start, done, e, now, assets, ids', r);
        ids' := ids' + {e.id};
        r := UpsertDriveFile(e, r, now);
        done := done + [e];
      }
      assert files[..|files|] == files;
    }

    /** `available` says that a folder, credentials and tokens are configured. */
    method SyncFolder(available: bool, responses: seq<Page>, now: Time) returns (counts: Counts)
      requires Complete(responses)
      modifies this
      ensures assets == if available then Sync(old(assets), Entries(responses), now) else old(assets)
      ensures counts == if available then SyncCounts(old(assets), Entries(responses), now) else Counts(0, 0, 0)
    {
      counts := Counts(0, 0, 0);
      if !available {
        return;
      }
      ghost var start := assets;
      var ids: set<string> := {};
      var p := 0;
      while true
        invariant 0 <= p < |responses|
        invariant Reached(start, Entries(responses[..p]), now, assets, ids, counts)
        decreases |responses| - p
      {
        EntriesOneMore(responses, p);
        var resp := responses[p];
        ids, counts := SyncPage(resp.files, ids, counts, now, start, Entries(responses[..p]));
        if !Given(resp.nextPageToken) {
          assert p == |responses| - 1 && responses[..p + 1] == responses;
          break;
        }
        p := p + 1;
      }
      counts := MarkRemovedAssets(ids, counts, now);
    }
  }
}
