/** What a pass over a remote listing does, told from the rows: which posts it removes, which
    post gets the id of a listed one, and what is imported. */
module RemoteSyncVerdicts {
  import opened Common
  import opened Text
  import opened RemoteSync
  import opened RemoteSyncLaws

  // ---- One listed post ---------------------------------------------------------------------------

  /** A stored post or delivery of the channel has the id. */
  ghost predicate HasId(db: Db, channel: nat, id: string) {
    || (exists i :: 0 <= i < |db.posts| && db.posts[i].Some? && db.posts[i].value.channel == Some(channel) && db.posts[i].value.storedId == Some(id))
    || (exists k :: 0 <= k < |db.deliveries| && db.deliveries[k].channel == channel && db.deliveries[k].externalId == Some(id))
  }

  lemma HeldIsHasId(db: Db, channel: nat, id: string)
    ensures Held(db, channel, id) <==> HasId(db, channel, id)
  {
    if i :| 0 <= i < |db.posts| && db.posts[i].Some? && db.posts[i].value.channel == Some(channel) && db.posts[i].value.storedId == Some(id) {
      assert Holds(db.posts[i], channel, id);
    }
    if k :| 0 <= k < |db.deliveries| && db.deliveries[k].channel == channel && db.deliveries[k].externalId == Some(id) {
      assert Delivers(db.deliveries[k], channel, id);
    }
  }

  /** At most a day apart; a listed post without a time is near every post. */
  predicate Near(r: Remote, p: Post) {
    r.publishedAt.Some? ==>
      && p.publishedAt.Some?
      && p.publishedAt.value <= r.publishedAt.value + 24 * 60 * 60 * 1000000
      && r.publishedAt.value <= p.publishedAt.value + 24 * 60 * 60 * 1000000
  }

  /** The same content, or the same title, blanks at the ends aside; a blank text is the same
      as no other. */
  predicate SameText(r: Remote, p: Post) {
    || (Clean(p.content) == Clean(r.content) != "")
    || (Strip(p.title) == Clean(r.title) != "")
  }

  /** Post `i` could be the listed one. */
  predicate Alike(db: Db, s: Source, r: Remote, i: nat) {
    && i < |db.posts| && db.posts[i].Some?
    && db.posts[i].value.channel == Some(s.channel)
    && Near(r, db.posts[i].value) && SameText(r, db.posts[i].value)
  }

  ghost predicate AloneAlike(db: Db, s: Source, r: Remote, i: nat) {
    Alike(db, s, r, i) && forall j | Alike(db, s, r, j) :: j == i
  }

  lemma MatchIsAloneAlike(db: Db, s: Source, r: Remote, i: nat)
    ensures MatchLocalPost(db, s, r) == Some(i) <==> AloneAlike(db, s, r, i)
  {
    var p := (q: Option<Post>) => Matches(s, r, q);
    assert forall j: nat | j < |db.posts| :: Alike(db, s, r, j) <==> p(db.posts[j]);
    CountNone(db.posts, p);
    if Count(db.posts, p) == 1 {
      var j := First(db.posts, p).value;
      forall k: nat | Alike(db, s, r, k) ensures k == j {
        CountOne(db.posts, p, j, k);
      }
    } else if AloneAlike(db, s, r, i) {
      OnlyOneCounts(db.posts, p, i);
    }
  }

  lemma {:induction false} OnlyOneCounts<T>(rows: seq<T>, p: T -> bool, i: nat)
    requires i < |rows| && p(rows[i])
    requires forall j | 0 <= j < |rows| && p(rows[j]) :: j == i
    ensures Count(rows, p) == 1
  {
    var n := |rows| - 1;
    if i == n {
      CountNone(rows[..n], p);
    } else {
      OnlyOneCounts(rows[..n], p, i);
    }
  }

  /** Queries now see the id the session holds. */
  ghost predicate Saved(p: Option<Post>, p': Option<Post>) {
    p'.Some? == p.Some? && (p.Some? ==> p'.value == p.value.(storedId := p.value.externalId))
  }

  ghost predicate AllSaved(before: Db, after: Db) {
    && |after.posts| >= |before.posts| && after.deliveries == before.deliveries
    && forall i | 0 <= i < |before.posts| :: Saved(before.posts[i], after.posts[i])
  }

  /** A listed post nobody is alone alike with is imported when a campaign is found for it. */
  ghost predicate Imports(s: Source, r: Remote, before: Db, after: Db) {
    if s.campaignFor(r).NoCampaign? then after == before
    else
      && AllSaved(before, after) && |after.posts| == |before.posts| + 1
      && var content := Clean(r.content);
         after.posts[|before.posts|] == Some(Post(Some(s.channel), Published, s.titleFor(r),
                                                 if content == "" then None else Some(content),
                                                 r.publishedAt, Some(Clean(r.externalId)), None))
  }

  /** What one listed post does to the tables. */
  ghost predicate Takes(s: Source, r: Remote, before: Db, after: Db) {
    var id := Clean(r.externalId);
    if id == "" || HasId(before, s.channel, id) then after == before
    else
      && after.deliveries == before.deliveries
      && (forall i: nat | AloneAlike(before, s, r, i) ::
            after.posts == before.posts[i := Some(before.posts[i].value.(externalId := Some(id)))])
      && ((forall i: nat :: !AloneAlike(before, s, r, i)) ==> Imports(s, r, before, after))
  }

  lemma OneListedPost(db: Db, s: Source, r: Remote)
    ensures Takes(s, r, db, SyncOne(db, s, r))
  {
    HeldIsHasId(db, s.channel, IdOf(r));
    var found := MatchLocalPost(db, s, r);
    forall i: nat ensures found == Some(i) <==> AloneAlike(db, s, r, i) {
      MatchIsAloneAlike(db, s, r, i);
    }
    if found.None? && s.Accepts(r) {
      ImportIsAsListed(db, s, r);
    }
  }

  lemma ImportIsAsListed(db: Db, s: Source, r: Remote)
    requires s.Accepts(r)
    ensures Imports(s, r, db, Attach(Flush(db.(posts := db.posts + [Some(Imported(s, r))])), |db.posts|, IdOf(r)))
  {
    var flushed := Flush(db.(posts := db.posts + [Some(Imported(s, r))]));
    assert forall i | 0 <= i < |db.posts| :: flushed.posts[i] == Stored(db.posts[i]);
  }

  /** An id no row has yet goes to the post that alone is alike, and to no other; when none or
      several are alike every old post keeps its own. */
  lemma WhoGetsTheId(db: Db, s: Source, r: Remote, i: nat)
    requires Clean(r.externalId) != "" && !HasId(db, s.channel, Clean(r.externalId))
    requires i < |db.posts| && db.posts[i].Some?
    ensures var after := SyncOne(db, s, r);
            && i < |after.posts| && after.posts[i].Some?
            && after.posts[i].value.externalId == if AloneAlike(db, s, r, i) then Some(Clean(r.externalId)) else db.posts[i].value.externalId
  {
    OneListedPost(db, s, r);
    if j: nat :| AloneAlike(db, s, r, j) {
      assert AloneAlike(db, s, r, i) ==> i == j;
    } else {
      assert Imports(s, r, db, SyncOne(db, s, r));
    }
  }

  /** Two alike: neither gets the id, and the listed post becomes a post of its own. */
  lemma AmbiguousIsImported(db: Db, s: Source, r: Remote, i: nat, j: nat)
    requires Clean(r.externalId) != "" && !HasId(db, s.channel, Clean(r.externalId))
    requires i != j && Alike(db, s, r, i) && Alike(db, s, r, j)
    ensures Imports(s, r, db, SyncOne(db, s, r))
  {
    OneListedPost(db, s, r);
    assert forall k: nat :: !AloneAlike(db, s, r, k);
  }

  // ---- Removal -----------------------------------------------------------------------------------

  predicate Lists(listing: seq<Remote>, id: string) {
    exists k :: 0 <= k < |listing| && Clean(listing[k].externalId) == id
  }

  /** The id is there, and the listing does not have it. */
  predicate Missing(id: Option<string>, listing: seq<Remote>) {
    id.Some? && Clean(id) != "" && !Lists(listing, Clean(id))
  }

  /** Post `i` is gone remotely: itself, when it has no delivery, or its only delivery. */
  ghost predicate IsGone(db: Db, s: Source, listing: seq<Remote>, i: nat) {
    && i < |db.posts| && db.posts[i].Some?
    && s.isFacebook && (exists k :: 0 <= k < |listing| && Clean(listing[k].externalId) != "")
    && (|| (&& db.posts[i].value.channel == Some(s.channel) && db.posts[i].value.status == Published
            && Missing(db.posts[i].value.externalId, listing)
            && forall k | 0 <= k < |db.deliveries| :: db.deliveries[k].post != i)
        || exists k :: OnlyDeliveryGone(db, s, listing, i, k))
  }

  ghost predicate OnlyDeliveryGone(db: Db, s: Source, listing: seq<Remote>, i: nat, k: nat) {
    && k < |db.deliveries| && db.deliveries[k].post == i && db.deliveries[k].channel == s.channel
    && Missing(db.deliveries[k].externalId, listing)
    && forall j | 0 <= j < |db.deliveries| && db.deliveries[j].post == i :: j == k
  }

  lemma MissingIsGone(id: Option<string>, listing: seq<Remote>)
    ensures Gone(id, ListedIds(listing)) <==> Missing(id, listing)
  {
    assert forall k | 0 <= k < |listing| && IdOf(listing[k]) != "" :: IdOf(listing[k]) in ListedIds(listing);
  }

  lemma DeliveriesCounted(ds: seq<Delivery>, i: nat, k: nat)
    requires k < |ds| && ds[k].post == i
    ensures DeliveriesOf(ds, i) == 1 <==> forall j | 0 <= j < |ds| && ds[j].post == i :: j == k
  {
    var p := (d: Delivery) => d.post == i;
    if Count(ds, p) == 1 {
      forall j | 0 <= j < |ds| && ds[j].post == i ensures j == k {
        CountOne(ds, p, j, k);
      }
    } else if forall j | 0 <= j < |ds| && ds[j].post == i :: j == k {
      OnlyOneCounts(ds, p, k);
    }
  }

  lemma DoomedIsGone(db: Db, s: Source, listing: seq<Remote>, i: nat)
    requires i < |db.posts|
    ensures Doomed(db, s, ListedIds(listing), i) <==> IsGone(db, s, listing, i)
  {
    var listed := ListedIds(listing);
    CountNone(db.deliveries, (d: Delivery) => d.post == i);
    if db.posts[i].Some? {
      MissingIsGone(db.posts[i].value.externalId, listing);
    }
    forall k: nat | k < |db.deliveries| && db.deliveries[k].post == i
      ensures GoneDelivery(db, s, listed, k) <==> db.posts[i].Some? && OnlyDeliveryGone(db, s, listing, i, k)
    {
      MissingIsGone(db.deliveries[k].externalId, listing);
      DeliveriesCounted(db.deliveries, i, k);
    }
    assert listed != {} <==> exists k :: 0 <= k < |listing| && Clean(listing[k].externalId) != "" by {
      if k :| 0 <= k < |listing| && Clean(listing[k].externalId) != "" {
        assert IdOf(listing[k]) in listed;
      }
    }
  }

  // ---- A whole pass --------------------------------------------------------------------------------

  /** Exactly the posts that are gone are removed, each with its deliveries. */
  ghost predicate Removes(db: Db, s: Source, listing: seq<Remote>, after: Db) {
    && |after.posts| == |db.posts|
    && (forall i: nat | i < |db.posts| :: after.posts[i] == if IsGone(db, s, listing, i) then None else db.posts[i])
    && (forall d :: d in after.deliveries <==> d in db.deliveries && !IsGone(db, s, listing, d.post))
  }

  /** A pass: what is gone is removed, the listed posts are taken one by one, all is saved. */
  ghost predicate IsPass(db: Db, s: Source, listing: seq<Remote>, dbs: seq<Db>, after: Db) {
    && |dbs| == |listing| + 1
    && Removes(db, s, listing, dbs[0])
    && (forall k | 0 <= k < |listing| :: Takes(s, listing[k], dbs[k], dbs[k + 1]))
    && AllSaved(dbs[|listing|], after) && |after.posts| == |dbs[|listing|].posts|
  }

  lemma RemovalVerdict(db: Db, s: Source, listing: seq<Remote>)
    ensures Removes(db, s, listing, Reconcile(db, s, listing))
  {
    KeptDeliveriesAreOld(db.deliveries, DoomedPosts(db, s, ListedIds(listing)));
    forall i: nat | i < |db.posts| ensures Doomed(db, s, ListedIds(listing), i) <==> IsGone(db, s, listing, i) {
      DoomedIsGone(db, s, listing, i);
    }
  }

  lemma PassVerdict(db: Db, s: Source, listing: seq<Remote>)
    ensures exists dbs :: IsPass(db, s, listing, dbs, Pass(db, s, listing))
  {
    var start := Reconcile(db, s, listing);
    RemovalVerdict(db, s, listing);
    var dbs := seq(|listing| + 1, n requires 0 <= n <= |listing| => SyncUpTo(start, s, listing, n));
    forall k | 0 <= k < |listing| ensures Takes(s, listing[k], dbs[k], dbs[k + 1]) {
      OneListedPost(dbs[k], s, listing[k]);
    }
    assert IsPass(db, s, listing, dbs, Pass(db, s, listing));
  }
}
