/** Syncing again: when does a second pass over the same listing change nothing? */
module RemoteSyncFixpoint {
  import opened Common
  import opened Text
  import opened RemoteSync
  import opened RemoteSyncLaws

  /** The session shows the id on a post of the channel, or on one of its deliveries. */
  ghost predicate Shown(db: Db, channel: nat, id: string) {
    || (exists i :: 0 <= i < |db.posts| && Shows(db.posts[i], channel, id))
    || First(db.deliveries, d => Delivers(d, channel, id)).Some?
  }

  ghost predicate Shows(p: Option<Post>, channel: nat, id: string) {
    p.Some? && p.value.channel == Some(channel) && p.value.externalId == Some(id)
  }

  ghost predicate AllHeld(db: Db, s: Source, listing: seq<Remote>) {
    forall k | 0 <= k < |listing| && IdOf(listing[k]) != "" :: Held(db, s.channel, IdOf(listing[k]))
  }

  lemma SettledHeldIsShown(db: Db, channel: nat, id: string)
    requires Settled(db)
    ensures Held(db, channel, id) <==> Shown(db, channel, id)
  {
    if i :| 0 <= i < |db.posts| && Shows(db.posts[i], channel, id) {
      assert Holds(db.posts[i], channel, id);
    }
  }

  lemma FlushedHeldIsShown(db: Db, channel: nat, id: string)
    ensures Settled(Flush(db))
    ensures Held(Flush(db), channel, id) <==> Shown(db, channel, id)
  {
    var flushed := Flush(db);
    if i :| 0 <= i < |db.posts| && Shows(db.posts[i], channel, id) {
      assert Holds(flushed.posts[i], channel, id);
    }
    var found := First(flushed.posts, p => Holds(p, channel, id));
    if found.Some? {
      assert Shows(db.posts[found.value], channel, id);
    }
  }

  // ---- An idle pass ------------------------------------------------------------------------------

  lemma {:induction false} HeldIsSkipped(db: Db, s: Source, listing: seq<Remote>, n: nat)
    requires n <= |listing|
    requires forall k | 0 <= k < n && IdOf(listing[k]) != "" :: Held(db, s.channel, IdOf(listing[k]))
    ensures SyncUpTo(db, s, listing, n) == db
  {
    if n > 0 {
      HeldIsSkipped(db, s, listing, n - 1);
    }
  }

  /** The session differs from `db` in a way no later step of the pass undoes: a post was
      imported, or a post carries an id queries do not see yet. */
  ghost predicate Moved(db: Db, db': Db, channel: nat) {
    && |db'.posts| >= |db.posts| && db'.deliveries == db.deliveries
    && (|db'.posts| == |db.posts| ==>
          && (forall i | 0 <= i < |db.posts| :: SameStored(db.posts[i], db'.posts[i]))
          && (exists i :: 0 <= i < |db.posts| && Dirty(db'.posts[i], channel)))
  }

  ghost predicate SameStored(p: Option<Post>, p': Option<Post>) {
    (p.Some? <==> p'.Some?) && (p.Some? ==> p'.value.storedId == p.value.storedId && p'.value.channel == p.value.channel)
  }

  ghost predicate Dirty(p: Option<Post>, channel: nat) {
    p.Some? && p.value.channel == Some(channel) && p.value.externalId.Some? && p.value.externalId != p.value.storedId
  }

  lemma MovedStaysMoved(db: Db, mid: Db, s: Source, r: Remote)
    requires Moved(db, mid, s.channel)
    ensures Moved(db, SyncOne(mid, s, r), s.channel)
  {
    var after := SyncOne(mid, s, r);
    FindsMatch(mid, s, r);
    if |after.posts| == |db.posts| {
      var i :| 0 <= i < |db.posts| && Dirty(mid.posts[i], s.channel);
      if after.posts != mid.posts {
        assert !Holds(mid.posts[MatchLocalPost(mid, s, r).value], s.channel, IdOf(r));
        assert Dirty(after.posts[MatchLocalPost(mid, s, r).value], s.channel);
      } else {
        assert Dirty(after.posts[i], s.channel);
      }
    }
  }

  lemma {:induction false} MovesFrom(db: Db, s: Source, listing: seq<Remote>, k: nat, n: nat)
    requires k < n <= |listing|
    requires Moved(db, SyncUpTo(db, s, listing, k + 1), s.channel)
    ensures Moved(db, SyncUpTo(db, s, listing, n), s.channel)
  {
    if n > k + 1 {
      MovesFrom(db, s, listing, k, n - 1);
      MovedStaysMoved(db, SyncUpTo(db, s, listing, n - 1), s, listing[n - 1]);
    }
  }

  /** The first listed id that is not held makes the session move. */
  lemma UnheldMoves(db: Db, s: Source, r: Remote)
    requires Settled(db) && IdOf(r) != "" && !Held(db, s.channel, IdOf(r)) && s.Accepts(r)
    ensures Moved(db, SyncOne(db, s, r), s.channel)
  {
    FindsMatch(db, s, r);
    var after := SyncOne(db, s, r);
    if MatchLocalPost(db, s, r).Some? {
      var i := MatchLocalPost(db, s, r).value;
      assert !Holds(db.posts[i], s.channel, IdOf(r));
      assert Dirty(after.posts[i], s.channel);
    }
  }

  lemma MovedIsDifferent(db: Db, db': Db, channel: nat)
    requires Moved(db, db', channel)
    ensures Flush(db') != db
  {
    if |db'.posts| == |db.posts| {
      var i :| 0 <= i < |db.posts| && Dirty(db'.posts[i], channel);
      assert SameStored(db.posts[i], db'.posts[i]);
      assert Flush(db').posts[i].value.storedId != db.posts[i].value.storedId;
    }
  }

  /** A pass over a settled, reconciled state changes nothing exactly when every listed id is
      held already. */
  lemma IdleExactlyWhenHeld(db: Db, s: Source, listing: seq<Remote>)
    requires Settled(db) && NobodyDoomed(db, s, ListedIds(listing))
    requires forall r | r in listing :: s.Accepts(r)
    ensures Pass(db, s, listing) == db <==> AllHeld(db, s, listing)
  {
    NobodyDoomedReconcileIdle(db, s, listing);
    if AllHeld(db, s, listing) {
      HeldIsSkipped(db, s, listing, |listing|);
      SettledNeedsNoFlush(db);
    } else {
      var k := FirstUnheld(db, s, listing, |listing|);
      HeldIsSkipped(db, s, listing, k);
      UnheldMoves(db, s, listing[k]);
      MovesFrom(db, s, listing, k, |listing|);
      MovedIsDifferent(db, SyncUpTo(db, s, listing, |listing|), s.channel);
    }
  }

  ghost predicate Unheld(db: Db, s: Source, r: Remote) {
    IdOf(r) != "" && !Held(db, s.channel, IdOf(r))
  }

  lemma {:induction false} FirstUnheld(db: Db, s: Source, listing: seq<Remote>, n: nat) returns (k: nat)
    requires n <= |listing| && exists j :: 0 <= j < n && Unheld(db, s, listing[j])
    ensures k < n && Unheld(db, s, listing[k])
    ensures forall j | 0 <= j < k :: !Unheld(db, s, listing[j])
  {
    if j :| 0 <= j < n - 1 && Unheld(db, s, listing[j]) {
      k := FirstUnheld(db, s, listing, n - 1);
    } else {
      k := n - 1;
    }
  }

  // ---- Good picks ---------------------------------------------------------------------------------

  /** If the next listed post is matched to a local one, that one does not carry a listed id. */
  ghost predicate GoodPick(db: Db, s: Source, listing: seq<Remote>, n: nat)
    requires n < |listing|
  {
    var r := listing[n];
    (IdOf(r) != "" && !Held(db, s.channel, IdOf(r)) && MatchLocalPost(db, s, r).Some?) ==>
      !ListedId(PostAt(db, MatchLocalPost(db, s, r).value).value.externalId, ListedIds(listing))
  }

  ghost predicate GoodPicks(db: Db, s: Source, listing: seq<Remote>) {
    forall n | 0 <= n < |listing| :: GoodPick(SyncUpTo(db, s, listing, n), s, listing, n)
  }

  /** What queries find of the listed ids, the session still shows. */
  ghost predicate NothingLost(db: Db, channel: nat, listed: set<string>) {
    forall id | id in listed && Held(db, channel, id) :: Shown(db, channel, id)
  }

  lemma AttachKeepsShown(db: Db, i: nat, id: string, channel: nat, other: string, listed: set<string>)
    requires PostAt(db, i).Some? && PostAt(db, i).value.channel == Some(channel)
    requires !ListedId(PostAt(db, i).value.externalId, listed)
    requires other in listed && Shown(db, channel, other)
    ensures Shown(Attach(db, i, id), channel, other)
  {
    var after := Attach(db, i, id);
    if j :| 0 <= j < |db.posts| && Shows(db.posts[j], channel, other) {
      assert Shows(after.posts[j], channel, other);
    }
  }

  lemma AttachShows(db: Db, i: nat, id: string, channel: nat)
    requires PostAt(db, i).Some? && PostAt(db, i).value.channel == Some(channel)
    ensures Shown(Attach(db, i, id), channel, id)
    ensures forall x :: Held(Attach(db, i, id), channel, x) <==> Held(db, channel, x)
  {
    var after := Attach(db, i, id);
    assert Shows(after.posts[i], channel, id);
    forall x ensures Held(after, channel, x) <==> Held(db, channel, x) {
      assert forall k | 0 <= k < |db.posts| :: Holds(after.posts[k], channel, x) <==> Holds(db.posts[k], channel, x);
    }
  }

  /** Importing flushes, adds a post and attaches the id to it. */
  lemma ImportShows(db: Db, s: Source, r: Remote, id: string)
    ensures var added := Flush(db.(posts := db.posts + [Some(Imported(s, r))]));
            var after := Attach(added, |db.posts|, id);
            && Shown(after, s.channel, id)
            && (forall x | Shown(db, s.channel, x) :: Shown(after, s.channel, x))
            && (forall x | Held(after, s.channel, x) :: Shown(db, s.channel, x))
  {
    var grown := db.(posts := db.posts + [Some(Imported(s, r))]);
    var added := Flush(grown);
    var after := Attach(added, |db.posts|, id);
    AttachShows(added, |db.posts|, id, s.channel);
    forall x | Shown(db, s.channel, x) ensures Shown(after, s.channel, x) {
      if j :| 0 <= j < |db.posts| && Shows(db.posts[j], s.channel, x) {
        assert Shows(after.posts[j], s.channel, x);
      }
    }
    forall x | Held(after, s.channel, x) ensures Shown(db, s.channel, x) {
      FlushedHeldIsShown(grown, s.channel, x);
      if j :| 0 <= j < |grown.posts| && Shows(grown.posts[j], s.channel, x) {
        assert j < |db.posts| && Shows(db.posts[j], s.channel, x);
      }
    }
  }

  /** One good pick shows its id and loses none. */
  lemma GoodPickShows(db: Db, s: Source, listing: seq<Remote>, n: nat)
    requires n < |listing| && GoodPick(db, s, listing, n) && s.Accepts(listing[n])
    requires NothingLost(db, s.channel, ListedIds(listing))
    ensures var after := SyncOne(db, s, listing[n]);
            && NothingLost(after, s.channel, ListedIds(listing))
            && (IdOf(listing[n]) != "" ==> Shown(after, s.channel, IdOf(listing[n])))
            && forall x | x in ListedIds(listing) && Shown(db, s.channel, x) :: Shown(after, s.channel, x)
  {
    var r, id, listed := listing[n], IdOf(listing[n]), ListedIds(listing);
    FindsMatch(db, s, r);
    if id != "" && !Held(db, s.channel, id) {
      if MatchLocalPost(db, s, r).Some? {
        var i := MatchLocalPost(db, s, r).value;
        AttachShows(db, i, id, s.channel);
        forall x | x in listed && Shown(db, s.channel, x) ensures Shown(Attach(db, i, id), s.channel, x) {
          AttachKeepsShown(db, i, id, s.channel, x, listed);
        }
      } else {
        ImportShows(db, s, r, id);
      }
    } else if id != "" {
      assert id in listed;
    }
  }

  ghost predicate PrefixShown(db: Db, s: Source, listing: seq<Remote>, n: nat)
    requires n <= |listing|
  {
    && NothingLost(db, s.channel, ListedIds(listing))
    && forall k | 0 <= k < n && IdOf(listing[k]) != "" :: Shown(db, s.channel, IdOf(listing[k]))
  }

  lemma OneMoreShown(db: Db, s: Source, listing: seq<Remote>, n: nat)
    requires n < |listing| && PrefixShown(db, s, listing, n)
    requires GoodPick(db, s, listing, n) && s.Accepts(listing[n])
    ensures PrefixShown(SyncOne(db, s, listing[n]), s, listing, n + 1)
  {
    GoodPickShows(db, s, listing, n);
    forall k | 0 <= k < n && IdOf(listing[k]) != "" ensures IdOf(listing[k]) in ListedIds(listing) {
    }
  }

  lemma NextPickShows(db: Db, s: Source, listing: seq<Remote>, n: nat)
    requires n < |listing| && GoodPicks(db, s, listing) && s.Accepts(listing[n])
    requires PrefixShown(SyncUpTo(db, s, listing, n), s, listing, n)
    ensures PrefixShown(SyncUpTo(db, s, listing, n + 1), s, listing, n + 1)
  {
    OneMoreShown(SyncUpTo(db, s, listing, n), s, listing, n);
  }

  lemma SettledShowsHeld(db: Db, s: Source, listing: seq<Remote>)
    requires Settled(db)
    ensures PrefixShown(db, s, listing, 0)
  {
    forall id ensures Held(db, s.channel, id) <==> Shown(db, s.channel, id) {
      SettledHeldIsShown(db, s.channel, id);
    }
  }

  lemma {:induction false} GoodPicksShow(db: Db, s: Source, listing: seq<Remote>, n: nat)
    requires n <= |listing| && Settled(db) && GoodPicks(db, s, listing)
    requires forall r | r in listing :: s.Accepts(r)
    ensures PrefixShown(SyncUpTo(db, s, listing, n), s, listing, n)
  {
    if n == 0 {
      SettledShowsHeld(db, s, listing);
    } else {
      GoodPicksShow(db, s, listing, n - 1);
      NextPickShows(db, s, listing, n - 1);
    }
  }

  /** When a campaign takes every import, and no local post is picked that already carries a
      listed id, one pass makes every listed id known, and a second pass over the same listing
      attaches, imports and removes nothing. */
  lemma SecondPassIsIdle(db: Db, s: Source, listing: seq<Remote>)
    requires Settled(db) && ForeignKeys(db)
    requires forall r | r in listing :: s.Accepts(r)
    requires GoodPicks(Reconcile(db, s, listing), s, listing)
    ensures AllHeld(Pass(db, s, listing), s, listing)
    ensures Pass(Pass(db, s, listing), s, listing) == Pass(db, s, listing)
  {
    var start := Reconcile(db, s, listing);
    var synced, once := SyncUpTo(start, s, listing, |listing|), Pass(db, s, listing);
    ReconcileKeepsSettled(db, s, listing);
    GoodPicksShow(start, s, listing, |listing|);
    forall k | 0 <= k < |listing| && IdOf(listing[k]) != "" ensures Held(once, s.channel, IdOf(listing[k])) {
      FlushedHeldIsShown(synced, s.channel, IdOf(listing[k]));
    }
    PassDoomsNobody(db, s, listing);
    IdleExactlyWhenHeld(once, s, listing);
  }

  lemma PassDoomsNobody(db: Db, s: Source, listing: seq<Remote>)
    requires ForeignKeys(db)
    ensures Settled(Pass(db, s, listing))
    ensures NobodyDoomed(Pass(db, s, listing), s, ListedIds(listing))
  {
    var start := Reconcile(db, s, listing);
    ReconcileOnceIsEnough(db, s, listing);
    ReconcileKeepsForeignKeys(db, s, listing);
    SyncChangesOnlyIds(start, s, listing, |listing|);
    FlushChangesOnlyStored(start, SyncUpTo(start, s, listing, |listing|), ListedIds(listing));
    SyncDoomsNobody(start, Pass(db, s, listing), s, listing);
  }

  lemma FlushChangesOnlyStored(db: Db, db': Db, listed: set<string>)
    requires OnlyIdsChange(db, db', listed)
    ensures OnlyIdsChange(db, Flush(db'), listed) && Settled(Flush(db'))
  {
  }

  lemma ReconcileKeepsForeignKeys(db: Db, s: Source, listing: seq<Remote>)
    requires ForeignKeys(db)
    ensures ForeignKeys(Reconcile(db, s, listing))
  {
    var after := Reconcile(db, s, listing);
    KeptDeliveriesAreOld(db.deliveries, DoomedPosts(db, s, ListedIds(listing)));
    forall k | 0 <= k < |after.deliveries| ensures after.deliveries[k].post < |after.posts| {
      assert after.deliveries[k] in db.deliveries;
    }
  }

  /** Passes settle exactly when the first one leaves every listed id held. */
  lemma SettlesExactlyWhenHeld(db: Db, s: Source, listing: seq<Remote>)
    requires ForeignKeys(db)
    requires forall r | r in listing :: s.Accepts(r)
    ensures Pass(Pass(db, s, listing), s, listing) == Pass(db, s, listing) <==> AllHeld(Pass(db, s, listing), s, listing)
  {
    PassDoomsNobody(db, s, listing);
    IdleExactlyWhenHeld(Pass(db, s, listing), s, listing);
  }
}
