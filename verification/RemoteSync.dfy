/** Reconciling local posts with a channel's remote listing (app/tasks/analytics_sync.py).

    A pass first removes local Facebook posts that are gone remotely, then attaches the id of
    every listed post to a local one, importing it when none matches. */
module RemoteSync {
  import opened Common
  import opened Text

  type Time = int

  const DAY: Time := 24 * 60 * 60 * 1000000

  datatype Status = Draft | Planned | Published

  /** `externalId` is the value in the session, `storedId` the one queries see: they differ
      between an assignment and the next flush. */
  datatype Post = Post(
    channel: Option<nat>,
    status: Status,
    title: string,
    content: Option<string>,
    publishedAt: Option<Time>,
    externalId: Option<string>,
    storedId: Option<string>)

  datatype Delivery = Delivery(post: nat, channel: nat, externalId: Option<string>)

  /** `posts[i]` is post `i`, or nothing once it is deleted. */
  datatype Db = Db(posts: seq<Option<Post>>, deliveries: seq<Delivery>)

  datatype Remote = Remote(externalId: Option<string>, title: Option<string>, content: Option<string>, publishedAt: Option<Time>)

  /** What picking a campaign for an import comes to: none, one there is, or a new one, which is
      flushed. */
  datatype Campaign = NoCampaign | Found | Created

  /** The channel being synced, with the campaign picked and the title made up for each import. */
  datatype Source = Source(channel: nat, isFacebook: bool, campaignFor: Remote -> Campaign, titleFor: Remote -> string) {
    predicate Accepts(r: Remote) {
      !campaignFor(r).NoCampaign?
    }
  }

  function IdOf(r: Remote): string {
    Clean(r.externalId)
  }

  function ListedIds(listing: seq<Remote>): set<string> {
    set k | 0 <= k < |listing| && IdOf(listing[k]) != "" :: IdOf(listing[k])
  }

  function PostAt(db: Db, i: nat): Option<Post> {
    if i < |db.posts| then db.posts[i] else None
  }

  // ---- Removing what is gone -------------------------------------------------------------------

  function DeliveriesOf(ds: seq<Delivery>, i: nat): nat {
    Count(ds, (d: Delivery) => d.post == i)
  }

  predicate Gone(id: Option<string>, listed: set<string>) {
    Clean(id) != "" && Clean(id) !in listed
  }

  /** A published post of the channel, without deliveries, whose id is not listed. */
  predicate GonePost(db: Db, s: Source, listed: set<string>, i: nat) {
    && PostAt(db, i).Some?
    && PostAt(db, i).value.channel == Some(s.channel)
    && PostAt(db, i).value.status.Published?
    && Gone(PostAt(db, i).value.externalId, listed)
    && DeliveriesOf(db.deliveries, i) == 0
  }

  /** Delivery `k` is on the channel, not listed, and the only one of its post. */
  predicate GoneDelivery(db: Db, s: Source, listed: set<string>, k: nat) {
    && k < |db.deliveries|
    && db.deliveries[k].channel == s.channel
    && Gone(db.deliveries[k].externalId, listed)
    && PostAt(db, db.deliveries[k].post).Some?
    && DeliveriesOf(db.deliveries, db.deliveries[k].post) == 1
  }

  predicate Doomed(db: Db, s: Source, listed: set<string>, i: nat) {
    s.isFacebook && listed != {} &&
    (GonePost(db, s, listed, i) || exists k :: 0 <= k < |db.deliveries| && db.deliveries[k].post == i && GoneDelivery(db, s, listed, k))
  }

  function DoomedPosts(db: Db, s: Source, listed: set<string>): set<nat> {
    set i | 0 <= i < |db.posts| && Doomed(db, s, listed, i)
  }

  function WithoutDeliveries(ds: seq<Delivery>, gone: set<nat>): seq<Delivery> {
    if ds == [] then []
    else
      var last := ds[|ds| - 1];
      WithoutDeliveries(ds[..|ds| - 1], gone) + (if last.post in gone then [] else [last])
  }

  /** Deleting posts takes their deliveries along. */
  function DeletePosts(db: Db, gone: set<nat>): Db {
    Db(seq(|db.posts|, i requires 0 <= i < |db.posts| => if i in gone then None else db.posts[i]),
       WithoutDeliveries(db.deliveries, gone))
  }

  function Reconcile(db: Db, s: Source, listing: seq<Remote>): Db {
    DeletePosts(db, DoomedPosts(db, s, ListedIds(listing)))
  }

  // ---- Attaching ids -----------------------------------------------------------------------------

  predicate Holds(p: Option<Post>, channel: nat, id: string) {
    p.Some? && p.value.channel == Some(channel) && p.value.storedId == Some(id)
  }

  predicate Delivers(d: Delivery, channel: nat, id: string) {
    d.channel == channel && d.externalId == Some(id)
  }

  /** A query finds the id on a post or a delivery of the channel. */
  predicate Held(db: Db, channel: nat, id: string) {
    || First(db.posts, p => Holds(p, channel, id)).Some?
    || First(db.deliveries, d => Delivers(d, channel, id)).Some?
  }

  predicate Candidate(s: Source, r: Remote, p: Option<Post>) {
    && p.Some? && p.value.channel == Some(s.channel)
    && (r.publishedAt.Some? ==>
          && p.value.publishedAt.Some?
          && r.publishedAt.value - DAY <= p.value.publishedAt.value <= r.publishedAt.value + DAY)
  }

  predicate Matches(s: Source, r: Remote, p: Option<Post>) {
    && Candidate(s, r, p)
    && (|| (Clean(r.content) != "" && Clean(p.value.content) == Clean(r.content))
        || (Clean(r.title) != "" && Strip(p.value.title) == Clean(r.title)))
  }

  /** The one local post that matches, if there is exactly one. */
  function MatchLocalPost(db: Db, s: Source, r: Remote): Option<nat> {
    if Count(db.posts, p => Matches(s, r, p)) == 1 then First(db.posts, p => Matches(s, r, p)) else None
  }

  function Stored(p: Option<Post>): Option<Post> {
    match p
    case None => None
    case Some(q) => Some(q.(storedId := q.externalId))
  }

  function Flush(db: Db): Db {
    db.(posts := seq(|db.posts|, i requires 0 <= i < |db.posts| => Stored(db.posts[i])))
  }

  function Imported(s: Source, r: Remote): Post {
    Post(Some(s.channel), Published, s.titleFor(r), NonEmpty(Clean(r.content)), r.publishedAt, None, None)
  }

  function Attach(db: Db, i: nat, id: string): Db {
    if PostAt(db, i).Some? then db.(posts := db.posts[i := Some(db.posts[i].value.(externalId := Some(id)))]) else db
  }

  /** One listed post. */
  function SyncOne(db: Db, s: Source, r: Remote): Db {
    var id := IdOf(r);
    if id == "" || Held(db, s.channel, id) then db
    else
      match MatchLocalPost(db, s, r)
      case Some(i) => Attach(db, i, id)
      case None =>
        if s.Accepts(r) then Attach(Flush(db.(posts := db.posts + [Some(Imported(s, r))])), |db.posts|, id) else db
  }

  /** The first `n` listed posts. */
  function SyncUpTo(db: Db, s: Source, listing: seq<Remote>, n: nat): Db
    requires n <= |listing|
  {
    if n == 0 then db else SyncOne(SyncUpTo(db, s, listing, n - 1), s, listing[n - 1])
  }

  /** A whole pass. */
  function Pass(db: Db, s: Source, listing: seq<Remote>): Db {
    Flush(SyncUpTo(Reconcile(db, s, listing), s, listing, |listing|))
  }

  // ---- The same, step by step ---------------------------------------------------------------------

  lemma {:induction false} CountNone<T>(rows: seq<T>, p: T -> bool)
    ensures Count(rows, p) == 0 <==> forall i | 0 <= i < |rows| :: !p(rows[i])
  {
    if rows != [] {
      var n := |rows| - 1;
      CountNone(rows[..n], p);
      assert forall i | 0 <= i < n :: rows[..n][i] == rows[i];
    }
  }

  lemma {:induction false} CountOne<T>(rows: seq<T>, p: T -> bool, i: nat, j: nat)
    requires Count(rows, p) == 1
    requires i < |rows| && j < |rows| && p(rows[i]) && p(rows[j])
    ensures i == j
  {
    var n := |rows| - 1;
    CountNone(rows[..n], p);
    if i < n && j < n {
      assert rows[..n][i] == rows[i];
      CountOne(rows[..n], p, i, j);
    } else if i < n {
      assert rows[..n][i] == rows[i];
    } else if j < n {
      assert rows[..n][j] == rows[j];
    }
  }

  class AnalyticsSync {
    var posts: seq<Option<Post>>
    var deliveries: seq<Delivery>

    function State(): Db
      reads this
    {
      Db(posts, deliveries)
    }

    method RemoteIds(listing: seq<Remote>) returns (ids: set<string>)
      ensures ids == ListedIds(listing)
    {
      ids := {};
      for i := 0 to |listing|
        invariant ids == set k | 0 <= k < i && IdOf(listing[k]) != "" :: IdOf(listing[k])
      {
        if IdOf(listing[i]) != "" {
          ids := ids + {IdOf(listing[i])};
        }
      }
    }

    method ReconcileRemovedRemotePosts(s: Source, listing: seq<Remote>) returns (removed: nat)
      modifies this
      ensures State() == Reconcile(old(State()), s, listing)
      ensures removed == |DoomedPosts(old(State()), s, ListedIds(listing))|
    {
      var listed := RemoteIds(listing);
      if !s.isFacebook || listed == {} {
        NothingDoomed(State(), s, listed);
        return 0;
      }
      var gone: set<nat>;
      gone, removed := FindGonePosts(s, listed);
      gone, removed := FindGoneDeliveries(s, listed, gone, removed);
      BothLoopsFindDoomed(State(), s, listed);
      var db := DeletePosts(State(), gone);
      posts, deliveries := db.posts, db.deliveries;
    }

    method ImportRemotePost(s: Source, r: Remote) returns (imported: Option<nat>)
      modifies this`posts
      ensures !s.Accepts(r) ==> imported.None? && posts == old(posts)
      ensures s.Accepts(r) ==> imported == Some(|old(posts)|)
                               && State() == Flush(old(State()).(posts := old(posts) + [Some(Imported(s, r))]))
    {
      var campaign := s.campaignFor(r);
      if campaign.NoCampaign? {
        return None;
      }
      EarlyFlushIsInvisible(State(), Imported(s, r));
      if campaign.Created? {
        posts := Flush(State()).posts;
      }
      imported := Some(|posts|);
      posts := posts + [Some(Imported(s, r))];
      posts := Flush(State()).posts;
    }

    /** One turn of the loop over the listing. */
    method SyncRemotePost(s: Source, r: Remote) returns (attached: bool)
      modifies this`posts
      ensures State() == SyncOne(old(State()), s, r)
      ensures !attached ==> posts == old(posts)
    {
      attached := false;
      var id := IdOf(r);
      if id == "" {
        return;
      }
      if First(posts, p => Holds(p, s.channel, id)).Some? {
        return;
      }
      if First(deliveries, d => Delivers(d, s.channel, id)).Some? {
        return;
      }
      var found := MatchLocalPost(State(), s, r);
      if found.None? {
        found := ImportRemotePost(s, r);
      }
      if found.Some? {
        posts := Attach(State(), found.value, id).posts;
        attached := true;
      }
    }

    /** A pass, in a session with nothing pending. */
    method SyncExternalPostIds(s: Source, listing: seq<Remote>) returns (matched: nat)
      requires Settled(State())
      modifies this
      ensures State() == Pass(old(State()), s, listing)
    {
      var removed := ReconcileRemovedRemotePosts(s, listing);
      ghost var start := State();
      matched := 0;
      ReconcileKeepsSettled(old(State()), s, listing);
      for n := 0 to |listing|
        invariant State() == SyncUpTo(start, s, listing, n)
        invariant matched == 0 ==> State() == start
      {
        var attached := SyncRemotePost(s, listing[n]);
        if attached {
          matched := matched + 1;
        }
      }
      if matched > 0 {
        posts := Flush(State()).posts;
      } else {
        SettledNeedsNoFlush(start);
      }
    }

    method FindGonePosts(s: Source, listed: set<string>) returns (gone: set<nat>, removed: nat)
      ensures gone == GonePosts(State(), s, listed, |posts|)
      ensures removed == |gone|
    {
      gone, removed := {}, 0;
      for i := 0 to |posts|
        invariant gone == GonePosts(State(), s, listed, i)
        invariant removed == |gone|
      {
        var isGone := GonePost(State(), s, listed, i);
        OnePostMore(State(), s, listed, i);
        if isGone {
          gone := gone + {i};
          removed := removed + 1;
        }
      }
    }

    method FindGoneDeliveries(s: Source, listed: set<string>, before: set<nat>, count: nat) returns (gone: set<nat>, removed: nat)
      requires before == GonePosts(State(), s, listed, |posts|) && count == |before|
      ensures gone == before + GoneByDelivery(State(), s, listed, |deliveries|)
      ensures removed == |gone|
    {
      gone, removed := before, count;
      for i := 0 to |deliveries|
        invariant gone == before + GoneByDelivery(State(), s, listed, i)
        invariant removed == |gone|
      {
        var isGone := GoneDelivery(State(), s, listed, i);
        OneDeliveryMore(State(), s, listed, before, i);
        if isGone {
          gone := gone + {deliveries[i].post};
          removed := removed + 1;
        }
      }
    }
  }

  lemma OnePostMore(db: Db, s: Source, listed: set<string>, n: nat)
    ensures var gone := GonePosts(db, s, listed, n);
            if GonePost(db, s, listed, n) then GonePosts(db, s, listed, n + 1) == gone + {n} && |gone + {n}| == |gone| + 1
            else GonePosts(db, s, listed, n + 1) == gone
  {
    GonePostsAre(db, s, listed, n);
  }

  lemma OneDeliveryMore(db: Db, s: Source, listed: set<string>, before: set<nat>, k: nat)
    requires k < |db.deliveries| && before == GonePosts(db, s, listed, |db.posts|)
    ensures var gone, x := before + GoneByDelivery(db, s, listed, k), db.deliveries[k].post;
            if GoneDelivery(db, s, listed, k) then
              before + GoneByDelivery(db, s, listed, k + 1) == gone + {x} && |gone + {x}| == |gone| + 1
            else GoneByDelivery(db, s, listed, k + 1) == GoneByDelivery(db, s, listed, k)
  {
    if GoneDelivery(db, s, listed, k) {
      NotGoneYet(db, s, listed, k);
      assert before + GoneByDelivery(db, s, listed, k + 1) == before + GoneByDelivery(db, s, listed, k) + {db.deliveries[k].post};
    } else {
      assert GoneByDelivery(db, s, listed, k + 1) == GoneByDelivery(db, s, listed, k) + {};
    }
  }

  function GonePosts(db: Db, s: Source, listed: set<string>, n: nat): set<nat> {
    if n == 0 then {} else GonePosts(db, s, listed, n - 1) + (if GonePost(db, s, listed, n - 1) then {n - 1} else {})
  }

  function GoneByDelivery(db: Db, s: Source, listed: set<string>, n: nat): set<nat>
    requires n <= |db.deliveries|
  {
    if n == 0 then {}
    else GoneByDelivery(db, s, listed, n - 1) + (if GoneDelivery(db, s, listed, n - 1) then {db.deliveries[n - 1].post} else {})
  }

  lemma {:induction false} GonePostsAre(db: Db, s: Source, listed: set<string>, n: nat)
    ensures forall i: nat :: i in GonePosts(db, s, listed, n) <==> i < n && GonePost(db, s, listed, i)
  {
    if n > 0 {
      GonePostsAre(db, s, listed, n - 1);
    }
  }

  lemma {:induction false} GoneByDeliveryAre(db: Db, s: Source, listed: set<string>, n: nat)
    requires n <= |db.deliveries|
    ensures forall i: nat :: i in GoneByDelivery(db, s, listed, n) <==>
              exists k :: 0 <= k < n && db.deliveries[k].post == i && GoneDelivery(db, s, listed, k)
  {
    if n > 0 {
      GoneByDeliveryAre(db, s, listed, n - 1);
    }
  }

  lemma BothLoopsFindDoomed(db: Db, s: Source, listed: set<string>)
    requires s.isFacebook && listed != {}
    ensures GonePosts(db, s, listed, |db.posts|) + GoneByDelivery(db, s, listed, |db.deliveries|) == DoomedPosts(db, s, listed)
  {
    GonePostsAre(db, s, listed, |db.posts|);
    GoneByDeliveryAre(db, s, listed, |db.deliveries|);
  }

  /** A post found by its only delivery was not found before. */
  lemma NotGoneYet(db: Db, s: Source, listed: set<string>, k: nat)
    requires GoneDelivery(db, s, listed, k)
    ensures db.deliveries[k].post !in GonePosts(db, s, listed, |db.posts|)
    ensures db.deliveries[k].post !in GoneByDelivery(db, s, listed, k)
  {
    OnlyOnce(db, s, listed, k);
    GonePostsAre(db, s, listed, |db.posts|);
    GoneByDeliveryAre(db, s, listed, k);
  }

  /** Nothing is pending: queries see what the session holds. */
  ghost predicate Settled(db: Db) {
    forall i | 0 <= i < |db.posts| && db.posts[i].Some? :: db.posts[i].value.storedId == db.posts[i].value.externalId
  }

  lemma SettledNeedsNoFlush(db: Db)
    requires Settled(db)
    ensures Flush(db) == db
  {
    assert Flush(db).posts == db.posts;
  }

  /** Creating a campaign flushes before the import does; the import's own flush would have done. */
  lemma EarlyFlushIsInvisible(db: Db, p: Post)
    ensures Flush(Flush(db).(posts := Flush(db).posts + [Some(p)])) == Flush(db.(posts := db.posts + [Some(p)]))
  {
    assert Flush(Flush(db).(posts := Flush(db).posts + [Some(p)])).posts == Flush(db.(posts := db.posts + [Some(p)])).posts;
  }

  lemma ReconcileKeepsSettled(db: Db, s: Source, listing: seq<Remote>)
    requires Settled(db)
    ensures Settled(Reconcile(db, s, listing))
  {
  }

  lemma NothingDoomed(db: Db, s: Source, listed: set<string>)
    requires !s.isFacebook || listed == {}
    ensures DoomedPosts(db, s, listed) == {} && DeletePosts(db, {}) == db
  {
    NoneDeleted(db.deliveries);
    assert DeletePosts(db, {}).posts == db.posts;
  }

  lemma {:induction false} NoneDeleted(ds: seq<Delivery>)
    ensures WithoutDeliveries(ds, {}) == ds
  {
    if ds != [] {
      NoneDeleted(ds[..|ds| - 1]);
    }
  }

  /** A post removed for its only delivery is removed once. */
  lemma OnlyOnce(db: Db, s: Source, listed: set<string>, k: nat)
    requires GoneDelivery(db, s, listed, k)
    ensures !GonePost(db, s, listed, db.deliveries[k].post)
    ensures forall j | 0 <= j < |db.deliveries| && j != k :: db.deliveries[j].post != db.deliveries[k].post
  {
    var i := db.deliveries[k].post;
    forall j | 0 <= j < |db.deliveries| && db.deliveries[j].post == i ensures j == k {
      CountOne(db.deliveries, (d: Delivery) => d.post == i, j, k);
    }
  }
}
