/** What a listed file makes of its asset: the name shown, the type, and every column after a
    sync, told from the listing and the table before it. */
module DriveFiles {
  import opened Common
  import opened Text
  import opened Drive
  import opened DriveLaws

  // ---- Names ---------------------------------------------------------------------------------------

  lemma {:induction false} LastIndexVerdict(s: string, c: char)
    ensures var i := LastIndexOf(s, c);
            && (i >= 0 ==> s[i] == c)
            && (forall j | i < j < |s| :: s[j] != c)
  {
    if s != "" && s[|s| - 1] != c {
      LastIndexVerdict(s[..|s| - 1], c);
    }
  }

  lemma LastIndexIs(s: string, c: char, i: int)
    requires -1 <= i < |s| && (i >= 0 ==> s[i] == c)
    requires forall j | i < j < |s| :: s[j] != c
    ensures LastIndexOf(s, c) == i
  {
    LastIndexVerdict(s, c);
  }

  /** Slashes, and dots that are components of their own. */
  predicate IsTail(tail: string) {
    forall i | 0 <= i < |tail| ::
      tail[i] == '/' || (tail[i] == '.' && i > 0 && tail[i - 1] == '/' && (i + 1 < |tail| ==> tail[i + 1] == '/'))
  }

  /** `file` is the last component of the path that is neither empty nor a dot. */
  predicate Parts(path: string, dir: string, file: string, tail: string) {
    && path == dir + file + tail
    && file != "" && file != "." && '/' !in file
    && (dir != "" ==> dir[|dir| - 1] == '/')
    && IsTail(tail)
  }

  lemma TailEnds(tail: string) returns (p: nat)
    requires IsTail(tail) && tail != ""
    ensures p < |tail| && tail[p] == '/' && tail[p + 1..] in {"", "."} && IsTail(tail[..p])
  {
    if tail[|tail| - 1] == '/' {
      p := |tail| - 1;
      assert tail[p + 1..] == "";
    } else {
      p := |tail| - 2;
      assert tail[p + 1..] == ".";
    }
  }

  lemma {:induction false} PartsAreFound(path: string, dir: string, file: string, tail: string)
    requires Parts(path, dir, file, tail)
    ensures FileName(path) == file
    decreases |tail|
  {
    if tail == "" {
      LastIndexIs(path, '/', |dir| - 1);
      assert path[|dir|..] == file;
    } else {
      var p := TailEnds(tail);
      var slash := |dir + file| + p;
      assert path[slash + 1..] == tail[p + 1..];
      assert path[..slash] == dir + file + tail[..p];
      LastIndexIs(path, '/', slash);
      PartsAreFound(path[..slash], dir, file, tail[..p]);
    }
  }

  lemma TailGrows(tail: string, last: string)
    requires IsTail(tail) && last in {"", "."}
    ensures IsTail(tail + "/" + last)
  {
  }

  lemma PartsGrow(front: string, dir: string, file: string, tail: string, last: string)
    requires Parts(front, dir, file, tail) && last in {"", "."}
    ensures Parts(front + "/" + last, dir, file, tail + "/" + last)
  {
    TailGrows(tail, last);
    assert front + "/" + last == dir + file + (tail + "/" + last);
  }

  lemma CutAt(s: string, i: nat)
    requires i < |s|
    ensures s == s[..i] + [s[i]] + s[i + 1..]
  {
  }

  lemma LastIsFile(dir: string, file: string)
    requires dir != "" ==> dir[|dir| - 1] == '/'
    requires file != "" && file != "." && forall i | 0 <= i < |file| :: file[i] != '/'
    ensures Parts(dir + file, dir, file, "")
  {
    assert dir + file == dir + file + "";
  }

  lemma Halves(s: string, i: nat)
    requires i <= |s|
    ensures s == s[..i] + s[i..]
  {
  }

  lemma SlashAt(path: string, slash: nat)
    requires slash < |path| && path[slash] == '/'
    ensures path == path[..slash] + "/" + path[slash + 1..]
  {
  }

  lemma WholeHasParts(path: string, slash: int)
    requires slash == LastIndexOf(path, '/') && path[slash + 1..] !in {"", "."}
    ensures Parts(path, path[..slash + 1], path[slash + 1..], "")
  {
    LastIndexVerdict(path, '/');
    var dir, last := path[..slash + 1], path[slash + 1..];
    Halves(path, slash + 1);
    LastIsFile(dir, last);
  }

  lemma {:induction false} FoundHasParts(path: string) returns (dir: string, tail: string)
    ensures FileName(path) != "" ==> Parts(path, dir, FileName(path), tail)
    decreases |path|
  {
    dir, tail := "", "";
    var slash := LastIndexOf(path, '/');
    var last := path[slash + 1..];
    if last !in {"", "."} {
      dir := path[..slash + 1];
      WholeHasParts(path, slash);
    } else if slash >= 0 {
      var front := path[..slash];
      dir, tail := FoundHasParts(front);
      if FileName(front) != "" {
        LastIndexVerdict(path, '/');
        SlashAt(path, slash);
        PartsGrow(front, dir, FileName(front), tail, last);
        tail := tail + "/" + last;
      }
    }
  }

  /** The name without the directories: the file of that path. */
  ghost predicate IsFileOf(path: string, file: string) {
    exists dir, tail :: Parts(path, dir, file, tail)
  }

  lemma FileVerdict(path: string, file: string)
    requires file != ""
    ensures FileName(path) == file <==> IsFileOf(path, file)
  {
    if FileName(path) == file {
      var dir, tail := FoundHasParts(path);
    }
    if dir, tail :| Parts(path, dir, file, tail) {
      PartsAreFound(path, dir, file, tail);
    }
  }

  ghost predicate HasSuffix(file: string, stem: string, ext: string) {
    file == stem + "." + ext && stem != "" && ext != "" && '.' !in ext
  }

  /** The file of the name is `stem` with a suffix. */
  ghost predicate HasStem(name: string, stem: string) {
    exists file, ext :: HasSuffix(file, stem, ext) && IsFileOf(name, file)
  }

  lemma SuffixFound(file: string, stem: string, ext: string)
    requires HasSuffix(file, stem, ext)
    ensures LastIndexOf(file, '.') == |stem| && file[..|stem|] == stem
  {
    LastIndexIs(file, '.', |stem|);
  }

  lemma SuffixAt(file: string, dot: nat)
    requires 0 < dot < |file| - 1 && file[dot] == '.'
    requires forall j | dot < j < |file| :: file[j] != '.'
    ensures HasSuffix(file, file[..dot], file[dot + 1..])
  {
    CutAt(file, dot);
  }

  lemma StemIsShown(name: string, stem: string)
    requires HasStem(name, stem)
    ensures DisplayName(name) == stem
  {
    var file, ext :| HasSuffix(file, stem, ext) && IsFileOf(name, file);
    FileVerdict(name, file);
    SuffixFound(file, stem, ext);
  }

  lemma ShownIsStem(name: string)
    requires name != "" && DisplayName(name) != name
    ensures HasStem(name, DisplayName(name))
  {
    var file := FileName(name);
    var dot := LastIndexOf(file, '.');
    LastIndexVerdict(file, '.');
    SuffixAt(file, dot);
    FileVerdict(name, file);
  }

  /** An asset is shown under its file's name without the suffix; under the whole name when the file
      has none; and an empty name is shown as untitled. */
  lemma DisplayVerdict(name: string)
    ensures forall stem | HasStem(name, stem) :: DisplayName(name) == stem
    ensures (forall stem :: !HasStem(name, stem)) ==> DisplayName(name) == if name == "" then "Untitled" else name
  {
    forall stem | HasStem(name, stem) ensures DisplayName(name) == stem {
      StemIsShown(name, stem);
    }
    if name != "" && DisplayName(name) != name {
      ShownIsStem(name);
    }
  }

  // ---- Columns -------------------------------------------------------------------------------------

  /** The file's name, or "Untitled" when the listing leaves it out. */
  function NameOf(e: File): string {
    if e.name.Some? then e.name.value else "Untitled"
  }

  /** What every listed file writes to its asset. */
  predicate Carries(a: Asset, e: File, now: Time) {
    && a.name == DisplayName(NameOf(e))
    && a.driveFileId == Some(e.id)
    && a.mimeType == Some(if e.mimeType.Some? then e.mimeType.value else "")
    && (e.size.Some? && e.size.value != 0 ==> a.fileSize == e.size)
    && (e.webViewLink.Some? && e.webViewLink.value != "" ==> a.driveUrl == e.webViewLink)
    && (e.thumbnailLink.Some? && e.thumbnailLink.value != "" ==> a.thumbnailUrl == e.thumbnailLink)
    && a.status == Active && a.lastVerifiedAt == Some(now)
  }

  /** What it leaves alone on an asset that was there: size and links it does not give, and the columns
      that are not the listing's. */
  predicate Keeps(a: Asset, before: Asset, e: File) {
    && (e.size in {None, Some(0)} ==> a.fileSize == before.fileSize)
    && (e.webViewLink in {None, Some("")} ==> a.driveUrl == before.driveUrl)
    && (e.thumbnailLink in {None, Some("")} ==> a.thumbnailUrl == before.thumbnailUrl)
    && a.assetType == before.assetType && a.tags == before.tags && a.uploadedBy == before.uploadedBy
  }

  /** What a new asset starts with. */
  predicate Starts(a: Asset, e: File) {
    && (a.assetType == Image <==> e.mimeType.Some? && e.mimeType.value in {"image/jpeg", "image/png", "image/gif", "image/webp", "image/svg+xml"})
    && (a.assetType == Video <==> e.mimeType.Some? && e.mimeType.value in {"video/mp4", "video/quicktime", "video/webm"})
    && (a.assetType == Image || a.assetType == Video || a.assetType == Document)
    && a.fileSize == Some(if e.size.Some? then e.size.value else 0)
    && a.driveUrl == Some(if e.webViewLink.Some? then e.webViewLink.value else "")
    && a.thumbnailUrl == e.thumbnailLink && a.tags == [] && a.uploadedBy == None
  }

  lemma CreatedVerdict(e: File, now: Time)
    ensures Carries(CreateAsset(e, now), e, now) && Starts(CreateAsset(e, now), e)
  {
  }

  lemma UpdatedVerdict(a: Asset, e: File, now: Time)
    requires a.driveFileId == Some(e.id)
    ensures Carries(UpdateAsset(a, e, now), e, now) && Keeps(UpdateAsset(a, e, now), a, e)
  {
  }

  // ---- After a sync --------------------------------------------------------------------------------

  predicate IsListed(es: seq<File>, id: string) {
    exists k :: 0 <= k < |es| && es[k].id == id
  }

  lemma {:induction false} IdsVerdict(es: seq<File>, id: string)
    ensures id in Ids(es) <==> IsListed(es, id)
  {
    if es != [] {
      IdsVerdict(es[..|es| - 1], id);
    }
  }

  /** Asset `i` is the first with the id. */
  predicate IsAssetOf(assets: seq<Asset>, id: string, i: nat) {
    i < |assets| && assets[i].driveFileId == Some(id) && forall j | 0 <= j < i :: assets[j].driveFileId != Some(id)
  }

  lemma FindVerdict(assets: seq<Asset>, id: string, i: nat)
    ensures FindFile(assets, id) == Some(i) <==> IsAssetOf(assets, id, i)
  {
  }

  predicate LastOf(es: seq<File>, n: nat) {
    n < |es| && forall j | n < j < |es| :: es[j].id != es[n].id
  }

  predicate OnlyOf(es: seq<File>, n: nat) {
    n < |es| && forall j | 0 <= j < |es| && j != n :: es[j].id != es[n].id
  }

  lemma {:induction false} FinalUnlisted(o: Option<Asset>, es: seq<File>, id: string, now: Time)
    requires forall j | 0 <= j < |es| :: es[j].id != id
    ensures Final(o, es, id, now) == o
  {
    if es != [] {
      FinalUnlisted(o, es[..|es| - 1], id, now);
    }
  }

  lemma {:induction false} FinalByLast(o: Option<Asset>, es: seq<File>, n: nat, now: Time)
    requires LastOf(es, n)
    ensures Final(o, es, es[n].id, now) == Some(Touch(Final(o, es[..n], es[n].id, now), es[n], now))
  {
    var last := |es| - 1;
    if n < last {
      assert es[..last][..n] == es[..n] && es[..last][n] == es[n];
      FinalByLast(o, es[..last], n, now);
    }
  }

  lemma {:induction false} FinalHasId(o: Option<Asset>, es: seq<File>, id: string, now: Time)
    requires o.Some? ==> o.value.driveFileId == Some(id)
    ensures Final(o, es, id, now).Some? ==> Final(o, es, id, now).value.driveFileId == Some(id)
  {
    if es != [] {
      FinalHasId(o, es[..|es| - 1], id, now);
    }
  }

  lemma SyncedLookup(assets: seq<Asset>, es: seq<File>, now: Time, id: string)
    requires id in Ids(es)
    ensures Lookup(Sync(assets, es, now), id) == Final(Lookup(assets, id), es, id, now)
  {
    LookupAfter(assets, es, now, id);
    MarkAllFinds(UpsertAll(assets, es, now), Ids(es), now, id);
  }

  /** The entries of a sync are those of its pages, one page after the other. */
  lemma {:induction false} PagesVerdict(pages: seq<Page>, more: seq<Page>)
    ensures |pages| == 1 ==> Entries(pages) == pages[0].files
    ensures Entries(pages + more) == Entries(pages) + Entries(more)
    decreases |more|
  {
    if |pages| == 1 {
      assert Entries(pages[..0]) == [];
    }
    if more == [] {
      assert pages + more == pages;
    } else {
      var n := |more| - 1;
      assert (pages + more)[..|pages + more| - 1] == pages + more[..n];
      PagesVerdict(pages, more[..n]);
    }
  }

  /** After a sync the asset of a listed id carries what the last entry with that id says. */
  lemma LastEntryWins(assets: seq<Asset>, es: seq<File>, now: Time, n: nat) returns (i: nat)
    requires LastOf(es, n)
    ensures IsAssetOf(Sync(assets, es, now), es[n].id, i) && Carries(Sync(assets, es, now)[i], es[n], now)
  {
    var id, o := es[n].id, Lookup(assets, es[n].id);
    IdsVerdict(es, id);
    SyncedLookup(assets, es, now, id);
    FinalByLast(o, es, n, now);
    FinalHasId(o, es[..n], id, now);
    TouchCarries(Final(o, es[..n], id, now), es[n], now);
    i := FindFile(Sync(assets, es, now), id).value;
  }

  lemma TouchCarries(o: Option<Asset>, e: File, now: Time)
    requires o.Some? ==> o.value.driveFileId == Some(e.id)
    ensures Carries(Touch(o, e, now), e, now)
    ensures if o.Some? then Keeps(Touch(o, e, now), o.value, e) else Starts(Touch(o, e, now), e)
  {
    match o
    case Some(a) => UpdatedVerdict(a, e, now);
    case None => CreatedVerdict(e, now);
  }

  /** An id listed once: its asset keeps what the entry does not give when it was there, and starts
      from the entry alone when it was not. */
  lemma SingleEntryVerdict(assets: seq<Asset>, es: seq<File>, now: Time, n: nat, i: nat)
    requires OnlyOf(es, n) && IsAssetOf(Sync(assets, es, now), es[n].id, i)
    ensures var a := Sync(assets, es, now)[i];
            && (forall j: nat | IsAssetOf(assets, es[n].id, j) :: j == i && Keeps(a, assets[j], es[n]))
            && ((forall j: nat :: !IsAssetOf(assets, es[n].id, j)) ==> i >= |assets| && Starts(a, es[n]))
  {
    var id, o := es[n].id, Lookup(assets, es[n].id);
    var after := Sync(assets, es, now);
    IdsVerdict(es, id);
    SyncedLookup(assets, es, now, id);
    FinalByLast(o, es, n, now);
    FinalUnlisted(o, es[..n], id, now);
    TouchCarries(o, es[n], now);
    FindVerdict(after, id, i);
    forall j: nat ensures FindFile(assets, id) == Some(j) <==> IsAssetOf(assets, id, j) {
      FindVerdict(assets, id, j);
    }
    PlaceKept(assets, es, now, id, i);
  }

  lemma PlaceKept(assets: seq<Asset>, es: seq<File>, now: Time, id: string, i: nat)
    requires FindFile(Sync(assets, es, now), id) == Some(i)
    ensures if FindFile(assets, id).Some? then FindFile(assets, id) == Some(i) else i >= |assets|
  {
    var u := UpsertAll(assets, es, now);
    UpsertAllFacts(assets, es, now);
    MarkAllFinds(u, Ids(es), now, id);
    if FindFile(assets, id).Some? {
      FoundStays(assets, u, id);
    }
  }

  /** An asset whose id is not listed goes missing now if it was active, and is left alone if not. */
  lemma UnlistedVerdict(assets: seq<Asset>, es: seq<File>, now: Time, i: nat)
    requires i < |assets| && assets[i].driveFileId.Some? && !IsListed(es, assets[i].driveFileId.value)
    ensures i < |Sync(assets, es, now)|
    ensures Sync(assets, es, now)[i] ==
            if assets[i].status == Active then assets[i].(status := Missing, lastVerifiedAt := Some(now)) else assets[i]
  {
    UpsertAllFacts(assets, es, now);
    IdsVerdict(es, assets[i].driveFileId.value);
  }
}
