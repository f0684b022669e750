/** What a reconciliation pass removes, attaches and leaves alone, and when a second pass on
    the same listing changes nothing. */
module RemoteSyncLaws {
  import opened Common
  import opened Text
  import opened RemoteSync

  // ---- Removal ---------------------------------------------------------------------------------

  lemma {:induction false} SurvivorsKeepDeliveries(ds: seq<Delivery>, gone: set<nat>, i: nat)
    requires i !in gone
    ensures DeliveriesOf(WithoutDeliveries(ds, gone), i) == DeliveriesOf(ds, i)
  {
    if ds != [] {
      var last := ds[|ds| - 1];
      var before := WithoutDeliveries(ds[..|ds| - 1], gone);
      SurvivorsKeepDeliveries(ds[..|ds| - 1], gone, i);
      if last.post !in gone {
        assert (before + [last])[..|before|] == before;
      } else {
        assert before + [] == before;
      }
    }
  }

  lemma {:induction false} KeptDeliveriesAreOld(ds: seq<Delivery>, gone: set<nat>)
    ensures forall d :: d in WithoutDeliveries(ds, gone) <==> d in ds && d.post !in gone
  {
    if ds != [] {
      KeptDeliveriesAreOld(ds[..|ds| - 1], gone);
      assert forall d :: d in ds <==> d in ds[..|ds| - 1] || d == ds[|ds| - 1];
    }
  }

  /** Reconciliation removes exactly the doomed posts, each with its deliveries, and touches
      nothing else.  Posts with several deliveries always survive; another channel, or a listing
      without any id, removes nothing. */
  lemma ReconcileVerdict(db: Db, s: Source, listing: seq<Remote>, i: nat)
    requires i < |db.posts|
    ensures var after := Reconcile(db, s, listing);
            && after.posts[i] == (if Doomed(db, s, ListedIds(listing), i) then None else db.posts[i])
            && (!Doomed(db, s, ListedIds(listing), i) ==> DeliveriesOf(after.deliveries, i) == DeliveriesOf(db.deliveries, i))
            && (forall d :: d in after.deliveries <==> d in db.deliveries && !(d.post < |db.posts| && Doomed(db, s, ListedIds(listing), d.post)))
    ensures DeliveriesOf(db.deliveries, i) >= 2 ==> !Doomed(db, s, ListedIds(listing), i)
    ensures !s.isFacebook || ListedIds(listing) == {} ==> Reconcile(db, s, listing) == db
  {
    var listed := ListedIds(listing);
    KeptDeliveriesAreOld(db.deliveries, DoomedPosts(db, s, listed));
    if !Doomed(db, s, listed, i) {
      SurvivorsKeepDeliveries(db.deliveries, DoomedPosts(db, s, listed), i);
    }
    if !s.isFacebook || listed == {} {
      NothingDoomed(db, s, listed);
    }
  }

  ghost predicate NobodyDoomed(db: Db, s: Source, listed: set<string>) {
    forall i: nat | i < |db.posts| :: !Doomed(db, s, listed, i)
  }

  /** What reconciliation leaves has nothing more to remove. */
  lemma ReconcileOnceIsEnough(db: Db, s: Source, listing: seq<Remote>)
    ensures NobodyDoomed(Reconcile(db, s, listing), s, ListedIds(listing))
  {
    var listed := ListedIds(listing);
    var after := Reconcile(db, s, listing);
    KeptDeliveriesAreOld(db.deliveries, DoomedPosts(db, s, listed));
    forall i: nat | i < |after.posts| ensures !Doomed(after, s, listed, i) {
      if !Doomed(db, s, listed, i) {
        ReconcileVerdict(db, s, listing, i);
        SurvivorNotDoomed(db, s, listing, i);
      }
    }
  }

  lemma SurvivorNotDoomed(db: Db, s: Source, listing: seq<Remote>, i: nat)
    requires i < |db.posts| && !Doomed(db, s, ListedIds(listing), i)
    ensures !Doomed(Reconcile(db, s, listing), s, ListedIds(listing), i)
  {
    var listed, after := ListedIds(listing), Reconcile(db, s, listing);
    ReconcileVerdict(db, s, listing, i);
    forall k | 0 <= k < |after.deliveries| && after.deliveries[k].post == i ensures after.deliveries[k] in db.deliveries {
      assert after.deliveries[k] in after.deliveries;
    }
  }

  lemma NobodyDoomedReconcileIdle(db: Db, s: Source, listing: seq<Remote>)
    requires NobodyDoomed(db, s, ListedIds(listing))
    ensures Reconcile(db, s, listing) == db
  {
    assert DoomedPosts(db, s, ListedIds(listing)) == {};
    NoneDeleted(db.deliveries);
    assert DeletePosts(db, {}).posts == db.posts;
  }

  // ---- What a pass does to a post ---------------------------------------------------------------

  /** Old posts keep everything but their remote id, which changes only to a listed one; new
      posts carry a listed id. */
  ghost predicate OnlyIdsChange(db: Db, db': Db, listed: set<string>) {
    && |db'.posts| >= |db.posts| && db'.deliveries == db.deliveries
    && (forall i | 0 <= i < |db.posts| :: OnlyIdChanges(db.posts[i], db'.posts[i], listed))
    && (forall i | |db.posts| <= i < |db'.posts| :: db'.posts[i].Some? && ListedId(db'.posts[i].value.externalId, listed))
  }

  ghost predicate OnlyIdChanges(o: Option<Post>, o': Option<Post>, listed: set<string>) {
    && (o'.Some? <==> o.Some?)
    && (o.Some? ==>
          && o'.value == o.value.(externalId := o'.value.externalId, storedId := o'.value.storedId)
          && (o'.value.externalId == o.value.externalId || ListedId(o'.value.externalId, listed)))
  }

  ghost predicate ListedId(id: Option<string>, listed: set<string>) {
    id.Some? && id.value in listed
  }

  lemma FindsMatch(db: Db, s: Source, r: Remote)
    ensures MatchLocalPost(db, s, r).Some? ==>
            MatchLocalPost(db, s, r).value < |db.posts| && Matches(s, r, db.posts[MatchLocalPost(db, s, r).value])
  {
  }

  lemma AttachChangesOnlyIds(db: Db, mid: Db, i: nat, id: string, listed: set<string>)
    requires OnlyIdsChange(db, mid, listed) && id in listed
    ensures OnlyIdsChange(db, Attach(mid, i, id), listed)
  {
  }

  lemma ImportChangesOnlyIds(db: Db, mid: Db, p: Post, id: string, listed: set<string>)
    requires OnlyIdsChange(db, mid, listed) && id in listed
    ensures OnlyIdsChange(db, Attach(Flush(mid.(posts := mid.posts + [Some(p)])), |mid.posts|, id), listed)
  {
    var after := Attach(Flush(mid.(posts := mid.posts + [Some(p)])), |mid.posts|, id);
    assert forall i | 0 <= i < |mid.posts| :: after.posts[i] == Stored(mid.posts[i]);
  }

  lemma OneChangesOnlyIds(db: Db, mid: Db, s: Source, listing: seq<Remote>, n: nat)
    requires n < |listing| && OnlyIdsChange(db, mid, ListedIds(listing))
    ensures OnlyIdsChange(db, SyncOne(mid, s, listing[n]), ListedIds(listing))
  {
    var id := IdOf(listing[n]);
    if id != "" {
      assert id in ListedIds(listing);
      match MatchLocalPost(mid, s, listing[n])
      case Some(i) => AttachChangesOnlyIds(db, mid, i, id, ListedIds(listing));
      case None => ImportChangesOnlyIds(db, mid, Imported(s, listing[n]), id, ListedIds(listing));
    }
  }

  lemma {:induction false} SyncChangesOnlyIds(db: Db, s: Source, listing: seq<Remote>, n: nat)
    requires n <= |listing|
    ensures OnlyIdsChange(db, SyncUpTo(db, s, listing, n), ListedIds(listing))
  {
    if n > 0 {
      SyncChangesOnlyIds(db, s, listing, n - 1);
      OneChangesOnlyIds(db, SyncUpTo(db, s, listing, n - 1), s, listing, n - 1);
    }
  }

  lemma ListedIdsAreClean(listing: seq<Remote>)
    ensures forall id | id in ListedIds(listing) :: id != "" && Clean(Some(id)) == id
  {
    forall id | id in ListedIds(listing) ensures id != "" && Clean(Some(id)) == id {
      var k :| 0 <= k < |listing| && IdOf(listing[k]) == id && id != "";
      StripTrims(Or(listing[k].externalId, ""));
    }
  }

  /** Every delivery belongs to a post. */
  ghost predicate ForeignKeys(db: Db) {
    forall k | 0 <= k < |db.deliveries| :: db.deliveries[k].post < |db.posts|
  }

  /** Attaching listed ids dooms nobody. */
  lemma SyncDoomsNobody(db: Db, db': Db, s: Source, listing: seq<Remote>)
    requires ForeignKeys(db)
    requires NobodyDoomed(db, s, ListedIds(listing)) && OnlyIdsChange(db, db', ListedIds(listing))
    ensures NobodyDoomed(db', s, ListedIds(listing))
  {
    ListedIdsAreClean(listing);
    forall i: nat | i < |db'.posts| ensures Doomed(db', s, ListedIds(listing), i) ==> i < |db.posts| && Doomed(db, s, ListedIds(listing), i) {
      DoomIsOld(db, db', s, ListedIds(listing), i);
    }
  }

  lemma DoomIsOld(db: Db, db': Db, s: Source, listed: set<string>, i: nat)
    requires ForeignKeys(db) && OnlyIdsChange(db, db', listed) && i < |db'.posts|
    requires forall id | id in listed :: id != "" && Clean(Some(id)) == id
    ensures Doomed(db', s, listed, i) ==> i < |db.posts| && Doomed(db, s, listed, i)
  {
    assert GonePost(db', s, listed, i) ==> i < |db.posts| && GonePost(db, s, listed, i);
    forall k | 0 <= k < |db'.deliveries| && db'.deliveries[k].post == i && GoneDelivery(db', s, listed, k)
      ensures i < |db.posts| && GoneDelivery(db, s, listed, k)
    {
    }
  }
}
