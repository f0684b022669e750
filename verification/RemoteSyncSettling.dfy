/** Exactly which listings settle: a match may take a post over from a listed id, and a later step may
    or may not put that id back. */
module RemoteSyncSettling {
  import opened Common
  import opened Text
  import opened RemoteSync
  import opened RemoteSyncLaws
  import opened RemoteSyncFixpoint

  // ---- Takeovers ---------------------------------------------------------------------------------

  /** The next listed post is matched to a local one that shows the id `x`. */
  ghost predicate TakesOver(db: Db, s: Source, r: Remote, x: string) {
    && IdOf(r) != "" && !Held(db, s.channel, IdOf(r))
    && MatchLocalPost(db, s, r).Some?
    && PostAt(db, MatchLocalPost(db, s, r).value).Some?
    && PostAt(db, MatchLocalPost(db, s, r).value).value.externalId == Some(x)
  }

  /** A later step lists `x` while no query finds it, and so attaches it again. */
  ghost predicate Reattached(db: Db, s: Source, listing: seq<Remote>, n: nat, x: string) {
    exists m: nat :: n < m < |listing| && AttachesAt(db, s, listing, m, x)
  }

  ghost predicate AttachesAt(db: Db, s: Source, listing: seq<Remote>, m: nat, x: string)
    requires m < |listing|
  {
    IdOf(listing[m]) == x && !Held(SyncUpTo(db, s, listing, m), s.channel, x)
  }

  ghost predicate TakeoverRepaired(db: Db, s: Source, listing: seq<Remote>, n: nat, x: string)
    requires n < |listing|
  {
    TakesOver(SyncUpTo(db, s, listing, n), s, listing[n], x) ==>
      Shown(SyncUpTo(db, s, listing, n + 1), s.channel, x) || Reattached(db, s, listing, n, x)
  }

  /** Whenever a step takes a post over from a listed id, another post or delivery of the channel still
      shows that id, or a later step attaches it again. */
  ghost predicate TakeoversRepaired(db: Db, s: Source, listing: seq<Remote>) {
    forall n: nat, x | n < |listing| && x in ListedIds(listing) :: TakeoverRepaired(db, s, listing, n, x)
  }

  // ---- One step ----------------------------------------------------------------------------------

  lemma AttachLosesOnlyTaken(db: Db, i: nat, id: string, channel: nat, x: string)
    requires PostAt(db, i).Some? && PostAt(db, i).value.externalId != Some(x)
    ensures Shown(db, channel, x) ==> Shown(Attach(db, i, id), channel, x)
  {
    var after := Attach(db, i, id);
    if j :| 0 <= j < |db.posts| && Shows(db.posts[j], channel, x) {
      assert Shows(after.posts[j], channel, x);
    }
  }

  lemma AttachGainsOnlyId(db: Db, i: nat, id: string, channel: nat, x: string)
    requires x != id
    ensures Shown(Attach(db, i, id), channel, x) ==> Shown(db, channel, x)
  {
    var after := Attach(db, i, id);
    if j :| 0 <= j < |after.posts| && Shows(after.posts[j], channel, x) {
      assert Shows(db.posts[j], channel, x);
    }
  }

  lemma ImportGainsOnlyId(db: Db, s: Source, r: Remote, id: string, x: string)
    requires x != id
    ensures Shown(Attach(Flush(db.(posts := db.posts + [Some(Imported(s, r))])), |db.posts|, id), s.channel, x) ==> Shown(db, s.channel, x)
  {
    var added := Flush(db.(posts := db.posts + [Some(Imported(s, r))]));
    AttachGainsOnlyId(added, |db.posts|, id, s.channel, x);
    if j :| 0 <= j < |added.posts| && Shows(added.posts[j], s.channel, x) {
      assert j < |db.posts| && Shows(db.posts[j], s.channel, x);
    }
  }

  /** A step hides an id only by taking its post over. */
  lemma StepLoses(db: Db, s: Source, r: Remote, x: string)
    ensures Shown(db, s.channel, x) ==> Shown(SyncOne(db, s, r), s.channel, x) || TakesOver(db, s, r, x)
  {
    if IdOf(r) != "" && !Held(db, s.channel, IdOf(r)) {
      FindsMatch(db, s, r);
      match MatchLocalPost(db, s, r)
      case Some(i) =>
        if PostAt(db, i).value.externalId != Some(x) {
          AttachLosesOnlyTaken(db, i, IdOf(r), s.channel, x);
        }
      case None =>
        ImportShows(db, s, r, IdOf(r));
    }
  }

  /** A step brings an id into view only by attaching it. */
  lemma StepGains(db: Db, s: Source, r: Remote, x: string)
    ensures !Shown(db, s.channel, x) && Shown(SyncOne(db, s, r), s.channel, x) ==> IdOf(r) == x && !Held(db, s.channel, x)
  {
    if IdOf(r) != "" && !Held(db, s.channel, IdOf(r)) && x != IdOf(r) {
      match MatchLocalPost(db, s, r)
      case Some(i) => AttachGainsOnlyId(db, i, IdOf(r), s.channel, x);
      case None => ImportGainsOnlyId(db, s, r, IdOf(r), x);
    }
  }

  lemma StepShows(db: Db, s: Source, r: Remote)
    requires s.Accepts(r) && IdOf(r) != "" && !Held(db, s.channel, IdOf(r))
    ensures Shown(SyncOne(db, s, r), s.channel, IdOf(r))
  {
    FindsMatch(db, s, r);
    match MatchLocalPost(db, s, r)
    case Some(i) => AttachShows(db, i, IdOf(r), s.channel);
    case None => ImportShows(db, s, r, IdOf(r));
  }

  /** What a query finds after a step, it found before or the session showed. */
  lemma StepHolds(db: Db, s: Source, r: Remote, x: string)
    ensures Held(SyncOne(db, s, r), s.channel, x) ==> Held(db, s.channel, x) || Shown(db, s.channel, x)
  {
    if IdOf(r) != "" && !Held(db, s.channel, IdOf(r)) {
      FindsMatch(db, s, r);
      match MatchLocalPost(db, s, r)
      case Some(i) => AttachShows(db, i, IdOf(r), s.channel);
      case None => ImportShows(db, s, r, IdOf(r));
    }
  }

  // ---- A whole pass --------------------------------------------------------------------------------

  ghost predicate ShownAt(db: Db, s: Source, listing: seq<Remote>, n: nat, x: string)
    requires n <= |listing|
  {
    Shown(SyncUpTo(db, s, listing, n), s.channel, x)
  }

  ghost predicate RisesBetween(v: int -> bool, n: nat, to: nat) {
    exists m: nat :: n <= m < to && RisesAt(v, m)
  }

  ghost predicate RisesAt(v: int -> bool, m: nat) {
    !v(m) && v(m + 1)
  }

  lemma {:induction false} SomethingRises(v: int -> bool, n: nat, to: nat)
    requires n <= to && !v(n) && v(to)
    ensures RisesBetween(v, n, to)
  {
    if v(to - 1) {
      SomethingRises(v, n, to - 1);
    } else {
      assert RisesAt(v, to - 1);
    }
  }

  ghost predicate ComesBack(v: int -> bool, n: nat, end: nat) {
    exists m: nat :: n < m <= end && v(m)
  }

  lemma CameBack(v: int -> bool, n: nat, m: nat, end: nat)
    requires n < m <= end && v(m)
    ensures ComesBack(v, n, end)
  {
  }

  /** What comes back whenever it goes is there at the end. */
  lemma {:induction false} ThereAtEnd(v: int -> bool, n: nat, end: nat)
    requires n <= end && v(n)
    requires forall k: nat | k < end && v(k) :: v(k + 1) || ComesBack(v, k, end)
    ensures v(end)
    decreases end - n
  {
    if n < end {
      if v(n + 1) {
        ThereAtEnd(v, n + 1, end);
      } else {
        var m: nat :| n < m <= end && v(m);
        ThereAtEnd(v, m, end);
      }
    }
  }

  ghost function View(db: Db, s: Source, listing: seq<Remote>, x: string): int -> bool {
    (n: int) => 0 <= n <= |listing| && ShownAt(db, s, listing, n, x)
  }

  ghost predicate AttachedBetween(db: Db, s: Source, listing: seq<Remote>, n: nat, to: nat, x: string)
    requires to <= |listing|
  {
    exists m: nat :: n <= m < to && AttachesAt(db, s, listing, m, x)
  }

  /** An id that comes into view does so at a step that attaches it. */
  lemma ComesIntoView(db: Db, s: Source, listing: seq<Remote>, n: nat, to: nat, x: string)
    requires n <= to <= |listing| && !ShownAt(db, s, listing, n, x) && ShownAt(db, s, listing, to, x)
    ensures AttachedBetween(db, s, listing, n, to, x)
  {
    var v := View(db, s, listing, x);
    SomethingRises(v, n, to);
    var m: nat :| n <= m < to && RisesAt(v, m);
    StepGains(SyncUpTo(db, s, listing, m), s, listing[m], x);
    assert AttachesAt(db, s, listing, m, x);
  }

  /** What a query finds during a pass, the session showed at some moment before. */
  lemma {:induction false} HeldWasShown(db: Db, s: Source, listing: seq<Remote>, n: nat, x: string)
    requires n <= |listing| && Settled(db) && Held(SyncUpTo(db, s, listing, n), s.channel, x)
    ensures exists j: nat :: j <= n && ShownAt(db, s, listing, j, x)
  {
    if n == 0 {
      SettledHeldIsShown(db, s.channel, x);
      assert ShownAt(db, s, listing, 0, x);
    } else {
      StepHolds(SyncUpTo(db, s, listing, n - 1), s, listing[n - 1], x);
      if Held(SyncUpTo(db, s, listing, n - 1), s.channel, x) {
        HeldWasShown(db, s, listing, n - 1, x);
      } else {
        assert ShownAt(db, s, listing, n - 1, x);
      }
    }
  }

  ghost predicate AllAccepted(s: Source, listing: seq<Remote>) {
    forall r | r in listing :: s.Accepts(r)
  }

  lemma AttachedIsShown(db: Db, s: Source, listing: seq<Remote>, m: nat, x: string)
    requires AllAccepted(s, listing) && x != ""
    requires m < |listing| && AttachesAt(db, s, listing, m, x)
    ensures View(db, s, listing, x)(m + 1)
  {
    StepShows(SyncUpTo(db, s, listing, m), s, listing[m]);
  }

  lemma LostIsTaken(db: Db, s: Source, listing: seq<Remote>, n: nat, x: string)
    requires n < |listing| && ShownAt(db, s, listing, n, x) && !ShownAt(db, s, listing, n + 1, x)
    ensures TakesOver(SyncUpTo(db, s, listing, n), s, listing[n], x)
  {
    StepLoses(SyncUpTo(db, s, listing, n), s, listing[n], x);
  }

  lemma ReattachedComesBack(db: Db, s: Source, listing: seq<Remote>, n: nat, x: string)
    requires AllAccepted(s, listing) && x != "" && n < |listing| && Reattached(db, s, listing, n, x)
    ensures ComesBack(View(db, s, listing, x), n, |listing|)
  {
    var m: nat :| n < m < |listing| && AttachesAt(db, s, listing, m, x);
    AttachedIsShown(db, s, listing, m, x);
    CameBack(View(db, s, listing, x), n, m + 1, |listing|);
  }

  /** An id that goes out of view comes back. */
  lemma LostComesBack(db: Db, s: Source, listing: seq<Remote>, n: nat, x: string)
    requires AllAccepted(s, listing) && x in ListedIds(listing)
    requires n < |listing| && TakeoverRepaired(db, s, listing, n, x)
    requires ShownAt(db, s, listing, n, x) && !ShownAt(db, s, listing, n + 1, x)
    ensures ComesBack(View(db, s, listing, x), n, |listing|)
  {
    LostIsTaken(db, s, listing, n, x);
    ReattachedComesBack(db, s, listing, n, x);
  }

  lemma ViewComesBack(db: Db, s: Source, listing: seq<Remote>, n: nat, x: string)
    requires AllAccepted(s, listing) && TakeoversRepaired(db, s, listing) && x in ListedIds(listing)
    requires n < |listing| && View(db, s, listing, x)(n)
    ensures View(db, s, listing, x)(n + 1) || ComesBack(View(db, s, listing, x), n, |listing|)
  {
    if !ShownAt(db, s, listing, n + 1, x) {
      LostComesBack(db, s, listing, n, x);
    }
  }

  /** With every takeover repaired, an id once in view is in view at the end. */
  lemma StaysInView(db: Db, s: Source, listing: seq<Remote>, n: nat, x: string)
    requires AllAccepted(s, listing) && TakeoversRepaired(db, s, listing) && x in ListedIds(listing)
    requires n <= |listing| && View(db, s, listing, x)(n)
    ensures View(db, s, listing, x)(|listing|)
  {
    var v := View(db, s, listing, x);
    forall k: nat | k < |listing| && v(k) ensures v(k + 1) || ComesBack(v, k, |listing|) {
      ViewComesBack(db, s, listing, k, x);
    }
    ThereAtEnd(v, n, |listing|);
  }

  lemma ListedIsShown(db: Db, s: Source, listing: seq<Remote>, k: nat)
    requires Settled(db) && AllAccepted(s, listing) && TakeoversRepaired(db, s, listing)
    requires k < |listing| && IdOf(listing[k]) != ""
    ensures ShownAt(db, s, listing, |listing|, IdOf(listing[k]))
  {
    var x := IdOf(listing[k]);
    if Held(SyncUpTo(db, s, listing, k), s.channel, x) {
      HeldWasShown(db, s, listing, k, x);
      var j: nat :| j <= k && ShownAt(db, s, listing, j, x);
      StaysInView(db, s, listing, j, x);
    } else {
      StepShows(SyncUpTo(db, s, listing, k), s, listing[k]);
      StaysInView(db, s, listing, k + 1, x);
    }
  }

  ghost predicate AllShown(db: Db, s: Source, listing: seq<Remote>) {
    forall k: nat | k < |listing| && IdOf(listing[k]) != "" :: ShownAt(db, s, listing, |listing|, IdOf(listing[k]))
  }

  lemma ShownIsRepaired(db: Db, s: Source, listing: seq<Remote>, n: nat, x: string)
    requires AllShown(db, s, listing) && n < |listing| && x in ListedIds(listing)
    ensures TakeoverRepaired(db, s, listing, n, x)
  {
    var k: nat :| k < |listing| && IdOf(listing[k]) == x && x != "";
    assert ShownAt(db, s, listing, |listing|, IdOf(listing[k]));
    if !ShownAt(db, s, listing, n + 1, x) {
      ComesIntoView(db, s, listing, n + 1, |listing|, x);
    }
  }

  /** Every listed id is in view at the end exactly when every takeover is repaired. */
  lemma AllShownExactlyWhenRepaired(db: Db, s: Source, listing: seq<Remote>)
    requires Settled(db) && AllAccepted(s, listing)
    ensures AllShown(db, s, listing) <==> TakeoversRepaired(db, s, listing)
  {
    if TakeoversRepaired(db, s, listing) {
      forall k: nat | k < |listing| && IdOf(listing[k]) != "" ensures ShownAt(db, s, listing, |listing|, IdOf(listing[k])) {
        ListedIsShown(db, s, listing, k);
      }
    }
    if AllShown(db, s, listing) {
      forall n: nat, x | n < |listing| && x in ListedIds(listing) ensures TakeoverRepaired(db, s, listing, n, x) {
        ShownIsRepaired(db, s, listing, n, x);
      }
    }
  }

  lemma AllHeldIsAllShown(db: Db, s: Source, listing: seq<Remote>)
    ensures AllHeld(Flush(SyncUpTo(db, s, listing, |listing|)), s, listing) <==> AllShown(db, s, listing)
  {
    var end := SyncUpTo(db, s, listing, |listing|);
    forall x ensures Held(Flush(end), s.channel, x) <==> ShownAt(db, s, listing, |listing|, x) {
      FlushedHeldIsShown(end, s.channel, x);
    }
  }

  /** The exact condition.  When every import finds a campaign, a second pass over the same listing is
      idle, and every listed id is known after the first, if and only if every takeover of the first
      pass is repaired. */
  lemma SettlesExactlyWhenRepaired(db: Db, s: Source, listing: seq<Remote>)
    requires Settled(db) && ForeignKeys(db) && AllAccepted(s, listing)
    ensures Pass(Pass(db, s, listing), s, listing) == Pass(db, s, listing) <==> TakeoversRepaired(Reconcile(db, s, listing), s, listing)
    ensures AllHeld(Pass(db, s, listing), s, listing) <==> TakeoversRepaired(Reconcile(db, s, listing), s, listing)
  {
    ReconcileKeepsSettled(db, s, listing);
    AllShownExactlyWhenRepaired(Reconcile(db, s, listing), s, listing);
    AllHeldIsAllShown(Reconcile(db, s, listing), s, listing);
    SettlesExactlyWhenHeld(db, s, listing);
  }

  // ---- A condition on the tables and the listing alone -------------------------------------------------

  predicate ListedAt(listing: seq<Remote>, j: int) {
    0 <= j < |listing| && IdOf(listing[j]) != ""
  }

  /** Listed posts `j` and `k` both match local post `p`. */
  predicate BothMatch(s: Source, listing: seq<Remote>, j: int, k: int, p: Option<Post>) {
    ListedAt(listing, j) && ListedAt(listing, k) && Matches(s, listing[j], p) && Matches(s, listing[k], p)
  }

  /** No local post is matched by two listed posts, none is matched that carries the id of another
      listed post, and no listed post matches what an earlier one would be imported as. */
  ghost predicate Unambiguous(db: Db, s: Source, listing: seq<Remote>) {
    && (forall i, j, k | 0 <= i < |db.posts| && BothMatch(s, listing, j, k, db.posts[i]) :: j == k)
    && (forall i, j | 0 <= i < |db.posts| && ListedAt(listing, j) && Matches(s, listing[j], db.posts[i]) ::
          ListedId(db.posts[i].value.externalId, ListedIds(listing)) ==> db.posts[i].value.externalId == Some(IdOf(listing[j])))
    && (forall j, k | j < k && ListedAt(listing, j) && ListedAt(listing, k) ::
          !Matches(s, listing[k], Some(Imported(s, listing[j]))))
  }

  /** Matching looks at texts and times, never at ids. */
  lemma MatchesIgnoresIds(s: Source, r: Remote, p: Post, p': Post)
    requires p' == p.(externalId := p'.externalId, storedId := p'.storedId)
    ensures Matches(s, r, Some(p')) <==> Matches(s, r, Some(p))
  {
  }

  ghost predicate GivenBefore(s: Source, listing: seq<Remote>, n: nat, p: Post, id: Option<string>) {
    exists m :: m < n && ListedAt(listing, m) && Matches(s, listing[m], Some(p)) && id == Some(IdOf(listing[m]))
  }

  /** A local post's ids are the ones it had, or of earlier listed posts that match it. */
  ghost predicate OldPost(s: Source, listing: seq<Remote>, n: nat, p: Option<Post>, p': Option<Post>) {
    && (p'.Some? <==> p.Some?)
    && (p.Some? ==>
          && p'.value == p.value.(externalId := p'.value.externalId, storedId := p'.value.storedId)
          && (p'.value.externalId == p.value.externalId || GivenBefore(s, listing, n, p.value, p'.value.externalId))
          && (p'.value.storedId == p.value.externalId || GivenBefore(s, listing, n, p.value, p'.value.storedId)))
  }

  ghost predicate ImportOf(s: Source, listing: seq<Remote>, m: int, p': Option<Post>) {
    && ListedAt(listing, m) && p'.Some?
    && p'.value == Imported(s, listing[m]).(externalId := p'.value.externalId, storedId := p'.value.storedId)
  }

  ghost predicate NewPost(s: Source, listing: seq<Remote>, n: nat, p': Option<Post>) {
    exists m :: m < n && ImportOf(s, listing, m, p')
  }

  ghost predicate Tracked(db: Db, mid: Db, s: Source, listing: seq<Remote>, n: nat) {
    && |mid.posts| >= |db.posts|
    && (forall i | 0 <= i < |db.posts| :: OldPost(s, listing, n, db.posts[i], mid.posts[i]))
    && (forall i | |db.posts| <= i < |mid.posts| :: NewPost(s, listing, n, mid.posts[i]))
  }

  lemma OldPostLater(s: Source, listing: seq<Remote>, n: nat, p: Option<Post>, p': Option<Post>)
    requires OldPost(s, listing, n, p, p')
    ensures OldPost(s, listing, n + 1, p, p') && OldPost(s, listing, n + 1, p, Stored(p'))
  {
  }

  lemma NewPostLater(s: Source, listing: seq<Remote>, n: nat, p': Option<Post>)
    requires NewPost(s, listing, n, p')
    ensures NewPost(s, listing, n + 1, p') && NewPost(s, listing, n + 1, Stored(p'))
  {
    var m :| m < n && ImportOf(s, listing, m, p');
    assert ImportOf(s, listing, m, Stored(p'));
  }

  lemma TrackedLater(db: Db, mid: Db, s: Source, listing: seq<Remote>, n: nat)
    requires Tracked(db, mid, s, listing, n)
    ensures Tracked(db, mid, s, listing, n + 1) && Tracked(db, Flush(mid), s, listing, n + 1)
  {
    forall i | 0 <= i < |db.posts|
      ensures OldPost(s, listing, n + 1, db.posts[i], mid.posts[i]) && OldPost(s, listing, n + 1, db.posts[i], Flush(mid).posts[i])
    {
      OldPostLater(s, listing, n, db.posts[i], mid.posts[i]);
    }
    forall i | |db.posts| <= i < |mid.posts|
      ensures NewPost(s, listing, n + 1, mid.posts[i]) && NewPost(s, listing, n + 1, Flush(mid).posts[i])
    {
      NewPostLater(s, listing, n, mid.posts[i]);
    }
  }

  lemma AttachTracked(db: Db, mid: Db, s: Source, listing: seq<Remote>, n: nat, i: nat)
    requires Tracked(db, mid, s, listing, n + 1) && ListedAt(listing, n)
    requires i < |mid.posts| && Matches(s, listing[n], mid.posts[i])
    ensures Tracked(db, Attach(mid, i, IdOf(listing[n])), s, listing, n + 1)
  {
    var after := Attach(mid, i, IdOf(listing[n]));
    if i < |db.posts| {
      assert OldPost(s, listing, n + 1, db.posts[i], mid.posts[i]);
      MatchesIgnoresIds(s, listing[n], db.posts[i].value, mid.posts[i].value);
      assert GivenBefore(s, listing, n + 1, db.posts[i].value, Some(IdOf(listing[n])));
    } else {
      var m :| m < n + 1 && ImportOf(s, listing, m, mid.posts[i]);
      assert ImportOf(s, listing, m, after.posts[i]);
    }
  }

  lemma ImportTracked(db: Db, mid: Db, s: Source, listing: seq<Remote>, n: nat)
    requires Tracked(db, mid, s, listing, n) && ListedAt(listing, n)
    ensures Tracked(db, Attach(Flush(mid.(posts := mid.posts + [Some(Imported(s, listing[n]))])), |mid.posts|, IdOf(listing[n])), s, listing, n + 1)
  {
    var after := Attach(Flush(mid.(posts := mid.posts + [Some(Imported(s, listing[n]))])), |mid.posts|, IdOf(listing[n]));
    TrackedLater(db, mid, s, listing, n);
    assert forall i | 0 <= i < |mid.posts| :: after.posts[i] == Flush(mid).posts[i];
    assert ImportOf(s, listing, n, after.posts[|mid.posts|]);
  }

  lemma StepIsTracked(db: Db, mid: Db, s: Source, listing: seq<Remote>, n: nat)
    requires n < |listing| && Tracked(db, mid, s, listing, n)
    ensures Tracked(db, SyncOne(mid, s, listing[n]), s, listing, n + 1)
  {
    TrackedLater(db, mid, s, listing, n);
    FindsMatch(mid, s, listing[n]);
    if ListedAt(listing, n) {
      match MatchLocalPost(mid, s, listing[n])
      case Some(i) => AttachTracked(db, mid, s, listing, n, i);
      case None => ImportTracked(db, mid, s, listing, n);
    }
  }

  lemma {:induction false} PassIsTracked(db: Db, s: Source, listing: seq<Remote>, n: nat)
    requires n <= |listing| && Settled(db)
    ensures Tracked(db, SyncUpTo(db, s, listing, n), s, listing, n)
  {
    if n > 0 {
      PassIsTracked(db, s, listing, n - 1);
      StepIsTracked(db, SyncUpTo(db, s, listing, n - 1), s, listing, n - 1);
    }
  }

  /** With nothing ambiguous, a post that is picked carries no listed id. */
  lemma PickCarriesNoListedId(db: Db, mid: Db, s: Source, listing: seq<Remote>, n: nat, i: nat)
    requires Unambiguous(db, s, listing) && Tracked(db, mid, s, listing, n)
    requires ListedAt(listing, n) && !Held(mid, s.channel, IdOf(listing[n]))
    requires i < |mid.posts| && Matches(s, listing[n], mid.posts[i])
    ensures !ListedId(mid.posts[i].value.externalId, ListedIds(listing))
  {
    if i < |db.posts| {
      OldPickCarriesNoListedId(db, mid, s, listing, n, i);
    } else {
      var m :| m < n && ImportOf(s, listing, m, mid.posts[i]);
      MatchesIgnoresIds(s, listing[n], Imported(s, listing[m]), mid.posts[i].value);
      assert false;
    }
  }

  lemma OldPickCarriesNoListedId(db: Db, mid: Db, s: Source, listing: seq<Remote>, n: nat, i: nat)
    requires Unambiguous(db, s, listing) && Tracked(db, mid, s, listing, n)
    requires ListedAt(listing, n) && !Held(mid, s.channel, IdOf(listing[n]))
    requires i < |db.posts| && Matches(s, listing[n], mid.posts[i])
    ensures !ListedId(mid.posts[i].value.externalId, ListedIds(listing))
  {
    var p, p' := db.posts[i].value, mid.posts[i].value;
    assert OldPost(s, listing, n, db.posts[i], mid.posts[i]);
    MatchesIgnoresIds(s, listing[n], p, p');
    NotGivenBefore(db, s, listing, n, i, p'.externalId);
    NotGivenBefore(db, s, listing, n, i, p'.storedId);
    assert p'.externalId == p.externalId && p'.storedId == p.externalId;
    assert !Holds(mid.posts[i], s.channel, IdOf(listing[n]));
  }

  lemma NotGivenBefore(db: Db, s: Source, listing: seq<Remote>, n: nat, i: nat, id: Option<string>)
    requires Unambiguous(db, s, listing) && ListedAt(listing, n)
    requires i < |db.posts| && db.posts[i].Some? && Matches(s, listing[n], db.posts[i])
    ensures !GivenBefore(s, listing, n, db.posts[i].value, id)
  {
    forall m | m < n && ListedAt(listing, m) ensures !Matches(s, listing[m], Some(db.posts[i].value)) {
      assert BothMatch(s, listing, m, n, db.posts[i]) ==> m == n;
    }
  }

  lemma UnambiguousPicksAreGood(db: Db, s: Source, listing: seq<Remote>)
    requires Settled(db) && Unambiguous(db, s, listing)
    ensures GoodPicks(db, s, listing)
  {
    forall n | 0 <= n < |listing| ensures GoodPick(SyncUpTo(db, s, listing, n), s, listing, n) {
      var mid := SyncUpTo(db, s, listing, n);
      PassIsTracked(db, s, listing, n);
      FindsMatch(mid, s, listing[n]);
      if ListedAt(listing, n) && !Held(mid, s.channel, IdOf(listing[n])) && MatchLocalPost(mid, s, listing[n]).Some? {
        PickCarriesNoListedId(db, mid, s, listing, n, MatchLocalPost(mid, s, listing[n]).value);
      }
    }
  }

  lemma ReconcileKeepsUnambiguous(db: Db, s: Source, listing: seq<Remote>)
    requires Unambiguous(db, s, listing)
    ensures Unambiguous(Reconcile(db, s, listing), s, listing)
  {
    var after := Reconcile(db, s, listing);
    assert forall i | 0 <= i < |after.posts| && after.posts[i].Some? :: after.posts[i] == db.posts[i];
    forall i, j, k | 0 <= i < |after.posts| && BothMatch(s, listing, j, k, after.posts[i]) ensures j == k {
      assert BothMatch(s, listing, j, k, db.posts[i]);
    }
  }

  /** What a caller can check beforehand: on tables and a listing without ambiguity one pass is
      enough. */
  lemma UnambiguousSettles(db: Db, s: Source, listing: seq<Remote>)
    requires Settled(db) && ForeignKeys(db) && AllAccepted(s, listing)
    requires Unambiguous(db, s, listing)
    ensures AllHeld(Pass(db, s, listing), s, listing)
    ensures Pass(Pass(db, s, listing), s, listing) == Pass(db, s, listing)
  {
    ReconcileKeepsUnambiguous(db, s, listing);
    ReconcileKeepsSettled(db, s, listing);
    UnambiguousPicksAreGood(Reconcile(db, s, listing), s, listing);
    SecondPassIsIdle(db, s, listing);
  }
}
