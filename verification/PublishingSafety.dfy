/** What publishing guarantees, for one post and over whole runs. */
module PublishingSafety {
  import opened Common
  import opened Text
  import opened Publishing
  import opened PublishingChannels

  // ---- One post ------------------------------------------------------------------------------

  lemma {:induction false} NoIssueMeansReady(channels: map<nat, Channel>, p: Post, ds: seq<Delivery>)
    ensures IssuesOf(channels, p, ds) == [] <==> forall i | 0 <= i < |ds| :: IssueOf(channels, p, ds[i]).None?
  {
    if ds != [] {
      var n := |ds| - 1;
      NoIssueMeansReady(channels, p, ds[..n]);
      assert forall i | 0 <= i < n :: ds[..n][i] == ds[i];
      assert IssuesOf(channels, p, ds) == [] <==> IssuesOf(channels, p, ds[..n]) == [] && IssueOf(channels, p, ds[n]).None?;
    }
  }

  /** The branch for a missing channel is never reached once a post has no issue. */
  lemma ReadyMeansChannelsExist(channels: map<nat, Channel>, p: Post)
    ensures PublishabilityIssues(channels, p) == [] <==>
            Targets(channels, p) != [] && forall i | 0 <= i < |Targets(channels, p)| ::
              IssueOf(channels, p, Targets(channels, p)[i]).None?
    ensures PublishabilityIssues(channels, p) == [] ==>
            forall i | 0 <= i < |Targets(channels, p)| ::
              Targets(channels, p)[i].channel in channels && channels[Targets(channels, p)[i].channel].status.Connected?
  {
    NoIssueMeansReady(channels, p, Targets(channels, p));
  }

  lemma {:induction false} SentWhenAccepted(channels: map<nat, Channel>, id: nat, p: Post, ds: seq<Delivery>, remote: Remote)
    ensures SentTargets(channels, id, p, ds, remote) == [] <==> First(ds, d => Sends(channels, id, p, d, remote)).None?
    ensures forall t :: t in SentTargets(channels, id, p, ds, remote) <==>
              exists i :: 0 <= i < |ds| && Sends(channels, id, p, ds[i], remote) && t == TargetOf(id, p, ds[i])
  {
    if ds != [] {
      var n := |ds| - 1;
      SentWhenAccepted(channels, id, p, ds[..n], remote);
      forall t
        ensures t in SentTargets(channels, id, p, ds, remote) <==>
                exists i :: 0 <= i < |ds| && Sends(channels, id, p, ds[i], remote) && t == TargetOf(id, p, ds[i])
      {
        if i :| 0 <= i < |ds| && Sends(channels, id, p, ds[i], remote) && t == TargetOf(id, p, ds[i]) {
          assert i < n ==> ds[..n][i] == ds[i];
        }
      }
    }
  }

  ghost predicate PublishedNow(d: Delivery, now: Time) {
    d.status.DeliveryPublished? && d.externalId.Some? && d.publishedAt == Some(now) && d.error.None?
  }

  ghost predicate FailedClean(d: Delivery) {
    d.status.DeliveryFailed? && d.externalId.None? && d.publishedAt.None? && d.error.Some?
  }

  /** Publishing is all or nothing for the post: either it raises and the post keeps its
      status, remote id and time, every delivery that was tried having failed; or the post
      carries the id of the first delivery accepted, and each delivery is either published at
      that time or failed without an id. */
  lemma PublishVerdict(db: Db, id: nat, remote: Remote, now: Time)
    requires Lookup(db, id).Some?
    ensures var p, out := Lookup(db, id).value, ApplyPublish(db, id, remote, now);
            var p' := Lookup(out.db, id).value;
            match out.reply
            case Done =>
              && !p.status.Published? && PublishabilityIssues(db.channels, p) == []
              && p'.status.Published? && p'.publishedAt == Some(now)
              && FirstAccepted(db.channels, id, p, remote, p'.externalId)
              && |p'.deliveries| == |p.deliveries|
              && (forall i | 0 <= i < |p.deliveries| ::
                    if Sends(db.channels, id, p, p.deliveries[i], remote) then PublishedNow(p'.deliveries[i], now)
                    else FailedClean(p'.deliveries[i]))
              && |out.db.sent| > |db.sent| && db.sent <= out.db.sent
            case AllFailed =>
              && !p.status.Published? && PublishabilityIssues(db.channels, p) == []
              && p'.status == p.status && p'.externalId == p.externalId && p'.publishedAt == p.publishedAt
              && |p'.deliveries| == |p.deliveries|
              && (forall i | 0 <= i < |p.deliveries| :: FailedClean(p'.deliveries[i]))
              && out.db.sent == db.sent
            case _ => out.db == db && (p.status.Published? || PublishabilityIssues(db.channels, p) != [])
  {
    var p := Lookup(db, id).value;
    var ds := Targets(db.channels, p);
    SentWhenAccepted(db.channels, id, p, ds, remote);
    ReadyMeansChannelsExist(db.channels, p);
    if p.deliveries != [] {
      assert ds == p.deliveries;
    }
  }

  /** `externalId` is what the remote answered to the first target it accepted, in order. */
  ghost predicate FirstAccepted(channels: map<nat, Channel>, id: nat, p: Post, remote: Remote, externalId: Option<string>) {
    var ds := Targets(channels, p);
    exists i :: 0 <= i < |ds| && Sends(channels, id, p, ds[i], remote)
      && (forall j | 0 <= j < i :: !Sends(channels, id, p, ds[j], remote))
      && remote(TargetOf(id, p, ds[i])).Accepted? && externalId == Some(remote(TargetOf(id, p, ds[i])).externalId)
  }

  // ---- Runs --------------------------------------------------------------------------------------

  datatype Request =
    | Create(post: Post)
    | Edit(id: nat, title: string, content: Option<string>, channel: Option<nat>, status: PostStatus, scheduledAt: Option<Time>)
    | Publish(id: nat, remote: Remote, now: Time)
    | PublishDue(remote: Remote, now: Time)
    | Reschedule(id: nat, at: Time)
    | Replace(id: nat, selection: seq<nat>, content: Option<string>, overrides: map<nat, string>)
    | Delete(id: nat)
    | Reconnect(channels: map<nat, Channel>)
    | UpdatePublished(id: nat, newTitle: Option<string>, content: Option<string>, channel: Option<nat>, scheduledAt: Option<Time>, editor: Editor)
    | DeletePublished(id: nat, deleter: string -> bool)

  /** No edit takes the published status back from a post of which anything was sent.  A post may be
      created published, as an import is, an edit may mark one published, and an edit may take that
      back. */
  ghost predicate Allowed(db: Db, r: Request) {
    match r
    case Create(p) => p.deliveries == []
    case Edit(id, _, _, _, status, _) =>
      Lookup(db, id).Some? && Lookup(db, id).value.status.Published? ==>
        status.Published? || Unsent(db, id, Lookup(db, id).value)
    case _ => true
  }

  ghost function Apply(db: Db, r: Request): Db {
    match r
    case Create(p) => db.(posts := db.posts + [Some(p)])
    case Edit(id, title, content, channel, status, scheduledAt) => (
      match Lookup(db, id)
      case None => db
      case Some(p) =>
        WithPost(db, id, p.(title := title, content := content, channel := channel, status := status, scheduledAt := scheduledAt))
    )
    case Publish(id, remote, now) => ApplyPublish(db, id, remote, now).db
    case PublishDue(remote, now) => ApplyPublishDue(db, remote, now).db
    case Reschedule(id, at) => ApplyReschedule(db, id, at).db
    case Replace(id, channels, content, overrides) => ApplyReplace(db, id, channels, content, overrides).db
    case Delete(id) => if id < |db.posts| then db.(posts := db.posts[id := None]) else db
    case Reconnect(channels) => db.(channels := channels)
    case UpdatePublished(id, title, content, channel, at, editor) => ApplyUpdatePublished(db, id, title, content, channel, at, editor).db
    case DeletePublished(id, deleter) => ApplyDeletePublished(db, id, deleter).db
  }

  ghost function Run(db: Db, rs: seq<Request>): Db {
    if rs == [] then db else Apply(Run(db, rs[..|rs| - 1]), rs[|rs| - 1])
  }

  ghost predicate AllowedRun(db: Db, rs: seq<Request>) {
    forall k | 0 <= k < |rs| :: Allowed(Run(db, rs[..k]), rs[k])
  }

  /** The deliveries of a post have ids given out already and never twice. */
  ghost predicate IdsOk(p: Post, next: nat) {
    && (forall a | 0 <= a < |p.deliveries| :: p.deliveries[a].id < next)
    && (forall a, b | 0 <= a < b < |p.deliveries| :: p.deliveries[a].id != p.deliveries[b].id)
  }

  ghost predicate Apart(p: Post, q: Post) {
    forall a, b | 0 <= a < |p.deliveries| && 0 <= b < |q.deliveries| :: p.deliveries[a].id != q.deliveries[b].id
  }

  /** Nothing of post `id` has been sent, and none of its deliveries says it was. */
  ghost predicate Unsent(db: Db, id: nat, p: Post) {
    && Direct(id) !in db.sent
    && forall a | 0 <= a < |p.deliveries| ::
         Stored(p.deliveries[a].id) !in db.sent && !p.deliveries[a].status.DeliveryPublished?
  }

  /** A delivery says it is published exactly when it was sent. */
  ghost predicate PublishedAreSent(sent: seq<Target>, p: Post) {
    forall a | 0 <= a < |p.deliveries| :: p.deliveries[a].status.DeliveryPublished? <==> Stored(p.deliveries[a].id) in sent
  }

  ghost predicate PostOk(db: Db, id: nat) {
    Lookup(db, id).Some? ==>
      && IdsOk(Lookup(db, id).value, db.nextDelivery)
      && DistinctChannels(Lookup(db, id).value.deliveries)
      && PublishedAreSent(db.sent, Lookup(db, id).value)
      && (!Lookup(db, id).value.status.Published? ==> Unsent(db, id, Lookup(db, id).value))
  }

  ghost predicate Inv(db: Db) {
    && Distinct(db.sent)
    && (forall t | t in db.sent :: match t case Stored(d) => d < db.nextDelivery case Direct(p) => p < |db.posts|)
    && (forall id: nat :: PostOk(db, id))
    && (forall i: nat, j: nat | i != j && Lookup(db, i).Some? && Lookup(db, j).Some? :: Apart(Lookup(db, i).value, Lookup(db, j).value))
  }

  /** A step that rewrites one post, sending `new` for it. */
  lemma RewriteKeepsInv(db: Db, db': Db, id: nat, p: Post, p': Post, new': seq<Target>)
    requires Inv(db) && Lookup(db, id) == Some(p)
    requires db' == WithPost(db, id, p').(nextDelivery := db'.nextDelivery, sent := db.sent + new')
    requires db'.nextDelivery >= db.nextDelivery
    requires IdsOk(p', db'.nextDelivery)
    requires forall a | 0 <= a < |p'.deliveries| :: p'.deliveries[a].id >= db.nextDelivery || HasId(p, p'.deliveries[a].id)
    requires Distinct(new')
    requires new' != [] ==> !p.status.Published? && p'.status.Published?
    requires forall t | t in new' :: t == Direct(id) || (t.Stored? && HasId(p, t.delivery))
    requires DistinctChannels(p'.deliveries) && PublishedAreSent(db.sent + new', p')
    requires !p'.status.Published? ==>
               && (!p.status.Published? || Unsent(db, id, p))
               && forall a | 0 <= a < |p'.deliveries| :: !p'.deliveries[a].status.DeliveryPublished?
    ensures Inv(db')
  {
    assert PostOk(db, id);
    assert Distinct(db'.sent) by {
      forall t | t in new' ensures t !in db.sent {
        assert new' != [];
      }
      DistinctAppend(db.sent, new');
    }
    forall k: nat ensures PostOk(db', k) {
      if k != id {
        OtherPostOk(db, db', id, k, p, new');
      }
    }
    forall i: nat, j: nat | i != j && Lookup(db', i).Some? && Lookup(db', j).Some?
      ensures Apart(Lookup(db', i).value, Lookup(db', j).value)
    {
      assert Apart(Lookup(db, i).value, Lookup(db, j).value) && PostOk(db, i) && PostOk(db, j);
    }
  }

  /** Sending for one post is sending for no other. */
  lemma OtherPostOk(db: Db, db': Db, id: nat, k: nat, p: Post, new': seq<Target>)
    requires Inv(db) && Lookup(db, id) == Some(p) && k != id && Lookup(db', k) == Lookup(db, k)
    requires db'.sent == db.sent + new' && db'.nextDelivery >= db.nextDelivery
    requires forall t | t in new' :: t == Direct(id) || (t.Stored? && HasId(p, t.delivery))
    ensures PostOk(db', k)
  {
    assert PostOk(db, k);
    if Lookup(db, k).Some? {
      var q := Lookup(db, k).value;
      assert Apart(p, q);
      forall a | 0 <= a < |q.deliveries| ensures Stored(q.deliveries[a].id) !in new' {
      }
    }
  }

  lemma DistinctAppend<T(!new)>(s: seq<T>, t: seq<T>)
    requires Distinct(s) && Distinct(t) && forall x | x in t :: x !in s
    ensures Distinct(s + t)
  {
    forall i, j | 0 <= i < j < |s + t| ensures (s + t)[i] != (s + t)[j] {
      if i < |s| <= j {
        assert (s + t)[j] == t[j - |s|];
        assert (s + t)[j] in t;
      }
    }
  }

  ghost predicate HasId(p: Post, d: nat) {
    exists a :: 0 <= a < |p.deliveries| && p.deliveries[a].id == d
  }

  // ---- Every request keeps the invariant -----------------------------------------------------------

  lemma {:induction false} SentTargetsAreDistinct(channels: map<nat, Channel>, id: nat, p: Post, ds: seq<Delivery>, remote: Remote, next: nat)
    requires if p.deliveries == [] then |ds| <= 1 else ds <= p.deliveries
    requires IdsOk(p, next)
    ensures Distinct(SentTargets(channels, id, p, ds, remote))
    ensures forall t | t in SentTargets(channels, id, p, ds, remote) ::
              if p.deliveries == [] then t == Direct(id) else t.Stored? && exists a :: 0 <= a < |ds| && p.deliveries[a].id == t.delivery
  {
    if ds != [] {
      var n := |ds| - 1;
      var init := SentTargets(channels, id, p, ds[..n], remote);
      SentTargetsAreDistinct(channels, id, p, ds[..n], remote, next);
      if Sends(channels, id, p, ds[n], remote) {
        var t := TargetOf(id, p, ds[n]);
        if p.deliveries != [] {
          assert ds[n] == p.deliveries[n];
        } else {
          assert init == [];
        }
        DistinctAppend(init, [t]);
      }
    }
  }

  lemma PublishKeepsIds(db: Db, id: nat, remote: Remote, now: Time)
    requires Lookup(db, id).Some? && (ApplyPublish(db, id, remote, now).reply.Done? || ApplyPublish(db, id, remote, now).reply.AllFailed?)
    ensures var p, p' := Lookup(db, id).value, Lookup(ApplyPublish(db, id, remote, now).db, id).value;
            && |p'.deliveries| == |p.deliveries|
            && (forall a | 0 <= a < |p'.deliveries| :: p'.deliveries[a].id == p.deliveries[a].id)
            && (forall a | 0 <= a < |p'.deliveries| :: HasId(p, p'.deliveries[a].id))
  {
    var p, p' := Lookup(db, id).value, Lookup(ApplyPublish(db, id, remote, now).db, id).value;
    PublishVerdict(db, id, remote, now);
    forall a | 0 <= a < |p'.deliveries| ensures HasId(p, p'.deliveries[a].id) {
      assert p.deliveries[a].id == p'.deliveries[a].id;
    }
  }

  /** A delivery is published by a publish exactly when it is among those sent. */
  lemma PublishedExactlyWhenSent(db: Db, id: nat, remote: Remote, now: Time)
    requires Lookup(db, id).Some? && (ApplyPublish(db, id, remote, now).reply.Done? || ApplyPublish(db, id, remote, now).reply.AllFailed?)
    requires IdsOk(Lookup(db, id).value, db.nextDelivery) && Unsent(db, id, Lookup(db, id).value)
    ensures PublishedAreSent(ApplyPublish(db, id, remote, now).db.sent, Lookup(ApplyPublish(db, id, remote, now).db, id).value)
  {
    var p, out := Lookup(db, id).value, ApplyPublish(db, id, remote, now);
    var p' := Lookup(out.db, id).value;
    PublishVerdict(db, id, remote, now);
    PublishKeepsIds(db, id, remote, now);
    forall a | 0 <= a < |p'.deliveries|
      ensures p'.deliveries[a].status.DeliveryPublished? <==> Stored(p'.deliveries[a].id) in out.db.sent
    {
      SentExactlyWhenAccepted(db.channels, id, p, remote, a, db.nextDelivery);
    }
  }

  lemma SentExactlyWhenAccepted(channels: map<nat, Channel>, id: nat, p: Post, remote: Remote, a: nat, next: nat)
    requires IdsOk(p, next) && a < |p.deliveries|
    ensures Stored(p.deliveries[a].id) in SentTargets(channels, id, p, Targets(channels, p), remote) <==>
            Sends(channels, id, p, p.deliveries[a], remote)
  {
    SentWhenAccepted(channels, id, p, p.deliveries, remote);
    assert forall i | 0 <= i < |p.deliveries| && Stored(p.deliveries[a].id) == TargetOf(id, p, p.deliveries[i]) :: i == a;
  }

  lemma PublishKeepsChannels(db: Db, id: nat, remote: Remote, now: Time)
    requires Lookup(db, id).Some? && DistinctChannels(Lookup(db, id).value.deliveries)
    requires ApplyPublish(db, id, remote, now).reply.Done? || ApplyPublish(db, id, remote, now).reply.AllFailed?
    ensures DistinctChannels(Lookup(ApplyPublish(db, id, remote, now).db, id).value.deliveries)
  {
    var p, p' := Lookup(db, id).value, Lookup(ApplyPublish(db, id, remote, now).db, id).value;
    forall a | 0 <= a < |p'.deliveries| ensures p'.deliveries[a].channel == p.deliveries[a].channel {
    }
  }

  /** What a publish sends is the post's own, each target once, and only from an unpublished post that it
      publishes. */
  lemma PublishSendsOwn(db: Db, id: nat, remote: Remote, now: Time)
    requires Lookup(db, id).Some? && IdsOk(Lookup(db, id).value, db.nextDelivery)
    requires ApplyPublish(db, id, remote, now).reply.Done? || ApplyPublish(db, id, remote, now).reply.AllFailed?
    ensures var p := Lookup(db, id).value;
            var out := ApplyPublish(db, id, remote, now);
            var new' := SentTargets(db.channels, id, p, Targets(db.channels, p), remote);
            && Distinct(new') && out.db.sent == db.sent + new'
            && (forall t | t in new' :: t == Direct(id) || (t.Stored? && HasId(p, t.delivery)))
            && !p.status.Published?
            && (new' != [] <==> Lookup(out.db, id).value.status.Published?)
  {
    var p := Lookup(db, id).value;
    SentTargetsAreDistinct(db.channels, id, p, Targets(db.channels, p), remote, db.nextDelivery);
    PublishVerdict(db, id, remote, now);
  }

  lemma FailedHaveNotPublished(db: Db, id: nat, remote: Remote, now: Time)
    requires Lookup(db, id).Some? && ApplyPublish(db, id, remote, now).reply.AllFailed?
    ensures var p' := Lookup(ApplyPublish(db, id, remote, now).db, id).value;
            forall a | 0 <= a < |p'.deliveries| :: !p'.deliveries[a].status.DeliveryPublished?
  {
    PublishVerdict(db, id, remote, now);
  }

  lemma PublishKeepsInv(db: Db, id: nat, remote: Remote, now: Time)
    requires Inv(db)
    ensures Inv(ApplyPublish(db, id, remote, now).db)
  {
    var out := ApplyPublish(db, id, remote, now);
    if Lookup(db, id).Some? && (out.reply.Done? || out.reply.AllFailed?) {
      var p, p' := Lookup(db, id).value, Lookup(out.db, id).value;
      assert PostOk(db, id);
      PublishSendsOwn(db, id, remote, now);
      PublishKeepsIds(db, id, remote, now);
      PublishedExactlyWhenSent(db, id, remote, now);
      PublishKeepsChannels(db, id, remote, now);
      if out.reply.AllFailed? {
        FailedHaveNotPublished(db, id, remote, now);
      }
      RewriteKeepsInv(db, out.db, id, p, p', SentTargets(db.channels, id, p, Targets(db.channels, p), remote));
    }
  }

  lemma {:induction false} PublishEachKeepsInv(db: Db, ids: seq<nat>, remote: Remote, now: Time)
    requires Inv(db)
    ensures Inv(PublishEach(db, ids, remote, now).db)
  {
    if ids != [] {
      PublishEachKeepsInv(db, ids[..|ids| - 1], remote, now);
      PublishKeepsInv(PublishEach(db, ids[..|ids| - 1], remote, now).db, ids[|ids| - 1], remote, now);
    }
  }

  /** Kept deliveries come from the old ones, each from its own. */
  ghost predicate ComesFrom(d: Delivery, old': Delivery) {
    d.id == old'.id && d.channel == old'.channel && (d.status.DeliveryPublished? <==> old'.status.DeliveryPublished?)
  }

  ghost predicate FromOld(p: Post, n: nat, d: Delivery)
    requires n <= |p.deliveries|
  {
    exists i :: 0 <= i < n && ComesFrom(d, p.deliveries[i])
  }

  ghost predicate DistinctIds(ds: seq<Delivery>) {
    forall a, b | 0 <= a < b < |ds| :: ds[a].id != ds[b].id
  }

  lemma {:induction false} KeptComeFromOld(p: Post, selected: seq<nat>, overrides: map<nat, string>, n: nat)
    requires n <= |p.deliveries| && DistinctIds(p.deliveries)
    ensures forall d | d in KeptDeliveries(p, selected, overrides, n) :: FromOld(p, n, d)
    ensures DistinctIds(KeptDeliveries(p, selected, overrides, n))
  {
    if n > 0 {
      var before, kept := KeptDeliveries(p, selected, overrides, n - 1), KeptDeliveries(p, selected, overrides, n);
      KeptComeFromOld(p, selected, overrides, n - 1);
      var d := if Represents(p.deliveries, n - 1) then Refit(p, p.deliveries[n - 1], overrides) else p.deliveries[n - 1];
      assert ComesFrom(d, p.deliveries[n - 1]);
      assert kept == before || kept == before + [d];
      forall x | x in before ensures FromOld(p, n, x) && x.id != d.id {
        var i :| 0 <= i < n - 1 && ComesFrom(x, p.deliveries[i]);
      }
      assert DistinctIds(before + [d]) by {
        forall a, b | 0 <= a < b < |before + [d]| ensures (before + [d])[a].id != (before + [d])[b].id {
          assert (before + [d])[a] in before;
        }
      }
    }
  }

  lemma {:induction false} AddedAreNew(db: Db, p: Post, selected: seq<nat>, content: Option<string>, overrides: map<nat, string>, a: nat)
    requires a < |AddedDeliveries(db, p, selected, content, overrides)|
    ensures AddedDeliveries(db, p, selected, content, overrides)[a].id == db.nextDelivery + a
    ensures AddedDeliveries(db, p, selected, content, overrides)[a].status == InitialStatus(p)
  {
    var before := AddedDeliveries(db, p, selected[..|selected| - 1], content, overrides);
    if a < |before| {
      AddedAreNew(db, p, selected[..|selected| - 1], content, overrides, a);
    }
  }

  lemma ReplacedIds(db: Db, p: Post, selected: seq<nat>, content: Option<string>, overrides: map<nat, string>)
    requires IdsOk(p, db.nextDelivery)
    ensures var kept, added := KeptDeliveries(p, selected, overrides, |p.deliveries|), AddedDeliveries(db, p, selected, content, overrides);
            var ds := kept + added;
            && DistinctIds(ds)
            && forall a | 0 <= a < |ds| ::
                 && ds[a].id < db.nextDelivery + |added|
                 && (ds[a].id >= db.nextDelivery || HasId(p, ds[a].id))
                 && (ds[a].status.DeliveryPublished? ==> exists i :: 0 <= i < |p.deliveries| && p.deliveries[i].status.DeliveryPublished?)
  {
    var kept, added := KeptDeliveries(p, selected, overrides, |p.deliveries|), AddedDeliveries(db, p, selected, content, overrides);
    var ds := kept + added;
    KeptComeFromOld(p, selected, overrides, |p.deliveries|);
    forall a | 0 <= a < |kept|
      ensures kept[a].id < db.nextDelivery && HasId(p, kept[a].id)
      ensures kept[a].status.DeliveryPublished? ==> exists i :: 0 <= i < |p.deliveries| && p.deliveries[i].status.DeliveryPublished?
    {
      assert FromOld(p, |p.deliveries|, kept[a]);
    }
    forall a: nat | a < |added| ensures added[a].id == db.nextDelivery + a && !added[a].status.DeliveryPublished? {
      AddedAreNew(db, p, selected, content, overrides, a);
    }
    forall a, b | 0 <= a < b < |ds| ensures ds[a].id != ds[b].id {
      if b < |kept| {
        assert kept[a].id != kept[b].id;
      }
    }
  }

  /** Choosing channels sends nothing: what is kept was sent or not before, what is added is new. */
  lemma ReplacedAreSent(db: Db, p: Post, selected: seq<nat>, content: Option<string>, overrides: map<nat, string>)
    requires IdsOk(p, db.nextDelivery) && PublishedAreSent(db.sent, p)
    requires forall t | t in db.sent && t.Stored? :: t.delivery < db.nextDelivery
    ensures var kept, added := KeptDeliveries(p, selected, overrides, |p.deliveries|), AddedDeliveries(db, p, selected, content, overrides);
            PublishedAreSent(db.sent, p.(deliveries := kept + added))
  {
    var kept, added := KeptDeliveries(p, selected, overrides, |p.deliveries|), AddedDeliveries(db, p, selected, content, overrides);
    KeptComeFromOld(p, selected, overrides, |p.deliveries|);
    forall a | 0 <= a < |kept| ensures kept[a].status.DeliveryPublished? <==> Stored(kept[a].id) in db.sent {
      assert FromOld(p, |p.deliveries|, kept[a]);
    }
    forall a: nat | a < |added| ensures !added[a].status.DeliveryPublished? && Stored(added[a].id) !in db.sent {
      AddedAreNew(db, p, selected, content, overrides, a);
    }
  }

  lemma ReplaceKeepsInv(db: Db, id: nat, channels: seq<nat>, content: Option<string>, overrides: map<nat, string>)
    requires Inv(db)
    ensures Inv(ApplyReplace(db, id, channels, content, overrides).db)
  {
    if Lookup(db, id).Some? {
      var p, out := Lookup(db, id).value, ApplyReplace(db, id, channels, content, overrides);
      var selected := Dedupe(channels);
      assert PostOk(db, id);
      ReplacedIds(db, p, selected, content, overrides);
      ReplacedAreSent(db, p, selected, content, overrides);
      ReplacedAreDistinct(db, p, channels, content, overrides);
      var p' := Lookup(out.db, id).value;
      assert out.db.sent == db.sent + [];
      RewriteKeepsInv(db, out.db, id, p, p', []);
    }
  }

  lemma PlainKeepsInv(db: Db, db': Db, id: nat, p: Post, p': Post)
    requires Inv(db) && Lookup(db, id) == Some(p) && db' == WithPost(db, id, p')
    requires p'.deliveries == p.deliveries && (p.status.Published? ==> p'.status.Published? || Unsent(db, id, p))
    ensures Inv(db')
  {
    assert PostOk(db, id);
    forall a | 0 <= a < |p'.deliveries| ensures HasId(p, p'.deliveries[a].id) {
    }
    assert db.sent + [] == db.sent;
    RewriteKeepsInv(db, db', id, p, p', []);
  }

  lemma CreateKeepsInv(db: Db, p: Post)
    requires Inv(db) && p.deliveries == []
    ensures Inv(db.(posts := db.posts + [Some(p)]))
  {
    var db' := db.(posts := db.posts + [Some(p)]);
    forall k: nat ensures PostOk(db', k) {
      assert PostOk(db, k);
    }
    forall i: nat, j: nat | i != j && Lookup(db', i).Some? && Lookup(db', j).Some?
      ensures Apart(Lookup(db', i).value, Lookup(db', j).value)
    {
      if i < |db.posts| && j < |db.posts| {
        assert Apart(Lookup(db, i).value, Lookup(db, j).value);
      }
    }
  }

  lemma DeleteKeepsInv(db: Db, id: nat)
    requires Inv(db) && id < |db.posts|
    ensures Inv(db.(posts := db.posts[id := None]))
  {
    var db' := db.(posts := db.posts[id := None]);
    forall k: nat ensures PostOk(db', k) {
      assert PostOk(db, k);
    }
    forall i: nat, j: nat | i != j && Lookup(db', i).Some? && Lookup(db', j).Some?
      ensures Apart(Lookup(db', i).value, Lookup(db', j).value)
    {
      assert Apart(Lookup(db, i).value, Lookup(db, j).value);
    }
  }

  lemma ReconnectKeepsInv(db: Db, channels: map<nat, Channel>)
    requires Inv(db)
    ensures Inv(db.(channels := channels))
  {
    var db' := db.(channels := channels);
    forall k: nat ensures PostOk(db', k) {
      assert PostOk(db, k);
    }
    forall i: nat, j: nat | i != j && Lookup(db', i).Some? && Lookup(db', j).Some?
      ensures Apart(Lookup(db', i).value, Lookup(db', j).value)
    {
      assert Apart(Lookup(db, i).value, Lookup(db, j).value);
    }
  }

  /** An edit of a published post either changes nothing or leaves it published, with the same
      deliveries in the same states. */
  lemma UpdateShape(db: Db, id: nat, title: Option<string>, content: Option<string>, channel: Option<nat>, at: Option<Time>, editor: Editor)
    ensures var db' := ApplyUpdatePublished(db, id, title, content, channel, at, editor).db;
            || db' == db
            || (&& Lookup(db, id).Some? && Lookup(db, id).value.status.Published?
                && Lookup(db', id).Some? && db' == WithPost(db, id, Lookup(db', id).value)
                && SamePlaces(Lookup(db, id).value, Lookup(db', id).value))
  {
  }

  ghost predicate SamePlaces(p: Post, p': Post) {
    && p'.status == p.status && p'.publishedAt == p.publishedAt && p'.channel == p.channel
    && |p'.deliveries| == |p.deliveries|
    && forall a | 0 <= a < |p.deliveries| ::
         && p'.deliveries[a].id == p.deliveries[a].id && p'.deliveries[a].channel == p.deliveries[a].channel
         && p'.deliveries[a].status == p.deliveries[a].status && p'.deliveries[a].publishedAt == p.deliveries[a].publishedAt
  }

  lemma SamePlacesKeepsInv(db: Db, id: nat, p: Post, p': Post)
    requires Inv(db) && Lookup(db, id) == Some(p) && p.status.Published? && SamePlaces(p, p')
    ensures Inv(WithPost(db, id, p'))
  {
    assert PostOk(db, id);
    forall a | 0 <= a < |p'.deliveries| ensures HasId(p, p'.deliveries[a].id) {
      assert p.deliveries[a].id == p'.deliveries[a].id;
    }
    assert db.sent + [] == db.sent;
    RewriteKeepsInv(db, WithPost(db, id, p'), id, p, p', []);
  }

  lemma UpdateKeepsInv(db: Db, id: nat, title: Option<string>, content: Option<string>, channel: Option<nat>, at: Option<Time>, editor: Editor)
    requires Inv(db)
    ensures Inv(ApplyUpdatePublished(db, id, title, content, channel, at, editor).db)
  {
    UpdateShape(db, id, title, content, channel, at, editor);
    var db' := ApplyUpdatePublished(db, id, title, content, channel, at, editor).db;
    if db' != db {
      SamePlacesKeepsInv(db, id, Lookup(db, id).value, Lookup(db', id).value);
    }
  }

  lemma StepKeepsInv(db: Db, r: Request)
    requires Inv(db) && Allowed(db, r)
    ensures Inv(Apply(db, r))
  {
    match r
    case Create(p) => CreateKeepsInv(db, p);
    case Edit(id, title, content, channel, status, at) =>
      if Lookup(db, id).Some? {
        var p := Lookup(db, id).value;
        PlainKeepsInv(db, Apply(db, r), id, p,
                      p.(title := title, content := content, channel := channel, status := status, scheduledAt := at));
      }
    case Publish(id, remote, now) => PublishKeepsInv(db, id, remote, now);
    case PublishDue(remote, now) => PublishEachKeepsInv(db, DuePosts(db.posts, now, |db.posts|), remote, now);
    case Reschedule(id, at) =>
      if Lookup(db, id).Some? {
        var p := Lookup(db, id).value;
        PlainKeepsInv(db, Apply(db, r), id, p, p.(scheduledAt := Some(at)));
      }
    case Replace(id, channels, content, overrides) => ReplaceKeepsInv(db, id, channels, content, overrides);
    case Delete(id) =>
      if id < |db.posts| {
        DeleteKeepsInv(db, id);
      }
    case Reconnect(channels) => ReconnectKeepsInv(db, channels);
    case UpdatePublished(id, title, content, channel, at, editor) => UpdateKeepsInv(db, id, title, content, channel, at, editor);
    case DeletePublished(id, deleter) =>
      if id < |db.posts| {
        DeleteKeepsInv(db, id);
      }
  }

  lemma AllowedPrefix(db: Db, rs: seq<Request>, n: nat)
    requires AllowedRun(db, rs) && n <= |rs|
    ensures AllowedRun(db, rs[..n])
  {
    forall k | 0 <= k < n ensures Allowed(Run(db, rs[..n][..k]), rs[..n][k]) {
      assert rs[..n][..k] == rs[..k];
    }
  }

  lemma {:induction false} RunKeepsInv(db: Db, rs: seq<Request>)
    requires Inv(db) && AllowedRun(db, rs)
    ensures Inv(Run(db, rs))
  {
    if rs != [] {
      var n := |rs| - 1;
      AllowedPrefix(db, rs, n);
      RunKeepsInv(db, rs[..n]);
      StepKeepsInv(Run(db, rs[..n]), rs[n]);
    }
  }

  /** At most once: in every run in which no edit takes the published status back from a post of which
      something was sent, no delivery (and no post sent straight to its channel) is accepted by a remote
      twice; every post has one delivery per channel, published exactly when it was sent; and a post
      that is not published has sent nothing. */
  lemma SentAtMostOnce(channels: map<nat, Channel>, rs: seq<Request>, id: nat)
    requires AllowedRun(Db([], channels, 0, []), rs)
    ensures var db := Run(Db([], channels, 0, []), rs);
            && Inv(db) && Distinct(db.sent)
            && (Lookup(db, id).Some? ==>
                  && DistinctChannels(Lookup(db, id).value.deliveries) && PublishedAreSent(db.sent, Lookup(db, id).value)
                  && (!Lookup(db, id).value.status.Published? ==> Unsent(db, id, Lookup(db, id).value)))
  {
    var db := Db([], channels, 0, []);
    RunKeepsInv(db, rs);
    assert PostOk(Run(db, rs), id);
  }

  // ---- What failed inside a published post stays unsent ---------------------------------------------

  /** No edit takes the published status back at all. */
  ghost predicate Keeps(db: Db, r: Request) {
    Allowed(db, r) && (r.Edit? && Lookup(db, r.id).Some? && Lookup(db, r.id).value.status.Published? ==> r.status.Published?)
  }

  ghost predicate KeepingRun(db: Db, rs: seq<Request>) {
    forall k | 0 <= k < |rs| :: Keeps(Run(db, rs[..k]), rs[k])
  }

  lemma KeepingIsAllowed(db: Db, rs: seq<Request>, n: nat)
    requires KeepingRun(db, rs) && n <= |rs|
    ensures AllowedRun(db, rs[..n]) && KeepingRun(db, rs[..n])
  {
    forall k | 0 <= k < n ensures Keeps(Run(db, rs[..n][..k]), rs[..n][k]) {
      assert rs[..n][..k] == rs[..k];
    }
  }

  /** A delivery id that no unpublished post holds and that will not be given out again. */
  ghost predicate Retired(db: Db, d: nat) {
    && d < db.nextDelivery
    && forall id: nat | Lookup(db, id).Some? && !Lookup(db, id).value.status.Published? :: !HasId(Lookup(db, id).value, d)
  }

  lemma RewriteKeepsRetired(db: Db, db': Db, id: nat, p: Post, p': Post, d: nat)
    requires Retired(db, d) && Lookup(db, id) == Some(p)
    requires db'.posts == db.posts[id := Some(p')] && db'.nextDelivery >= db.nextDelivery
    requires !p'.status.Published? ==> !p.status.Published? && !HasId(p', d)
    ensures Retired(db', d)
  {
    forall k: nat | Lookup(db', k).Some? && !Lookup(db', k).value.status.Published?
      ensures !HasId(Lookup(db', k).value, d)
    {
      assert k != id ==> Lookup(db, k) == Lookup(db', k);
    }
  }

  lemma PublishKeepsRetired(db: Db, id: nat, remote: Remote, now: Time, d: nat)
    requires Inv(db) && Retired(db, d)
    ensures var db' := ApplyPublish(db, id, remote, now).db;
            Retired(db', d) && (Stored(d) in db'.sent <==> Stored(d) in db.sent)
  {
    var out := ApplyPublish(db, id, remote, now);
    if Lookup(db, id).Some? && (out.reply.Done? || out.reply.AllFailed?) {
      var p, p' := Lookup(db, id).value, Lookup(out.db, id).value;
      assert PostOk(db, id) && !HasId(p, d);
      SameIds(db.channels, id, p, remote, now);
      assert HasId(p', d) <==> HasId(p, d);
      RewriteKeepsRetired(db, out.db, id, p, p', d);
      NothingSentFor(db, id, p, remote, d);
    }
  }

  lemma NothingSentFor(db: Db, id: nat, p: Post, remote: Remote, d: nat)
    requires IdsOk(p, db.nextDelivery) && !HasId(p, d)
    ensures Stored(d) !in SentTargets(db.channels, id, p, Targets(db.channels, p), remote)
  {
    SentTargetsAreDistinct(db.channels, id, p, Targets(db.channels, p), remote, db.nextDelivery);
  }

  lemma SameIds(channels: map<nat, Channel>, id: nat, p: Post, remote: Remote, now: Time)
    ensures p.deliveries != [] ==>
            forall d :: HasId(p.(deliveries := DeliverAll(channels, id, p, p.deliveries, remote, now)), d) <==> HasId(p, d)
  {
    var ds, q := p.deliveries, p.(deliveries := DeliverAll(channels, id, p, p.deliveries, remote, now));
    forall i | 0 <= i < |ds| ensures q.deliveries[i].id == ds[i].id {
    }
  }

  lemma {:induction false} PublishEachKeepsRetired(db: Db, ids: seq<nat>, remote: Remote, now: Time, d: nat)
    requires Inv(db) && Retired(db, d)
    ensures var db' := PublishEach(db, ids, remote, now).db;
            Retired(db', d) && (Stored(d) in db'.sent <==> Stored(d) in db.sent)
  {
    if ids != [] {
      var n := |ids| - 1;
      PublishEachKeepsInv(db, ids[..n], remote, now);
      PublishEachKeepsRetired(db, ids[..n], remote, now, d);
      PublishKeepsRetired(PublishEach(db, ids[..n], remote, now).db, ids[n], remote, now, d);
    }
  }

  lemma ReplaceKeepsRetired(db: Db, id: nat, channels: seq<nat>, content: Option<string>, overrides: map<nat, string>, d: nat)
    requires Inv(db) && Retired(db, d)
    ensures Retired(ApplyReplace(db, id, channels, content, overrides).db, d)
  {
    if Lookup(db, id).Some? {
      var p := Lookup(db, id).value;
      var db' := ApplyReplace(db, id, channels, content, overrides).db;
      var p' := Lookup(db', id).value;
      assert PostOk(db, id);
      ReplacedIds(db, p, Dedupe(channels), content, overrides);
      if HasId(p', d) {
        var a :| 0 <= a < |p'.deliveries| && p'.deliveries[a].id == d;
        assert HasId(p, d);
      }
      RewriteKeepsRetired(db, db', id, p, p', d);
    }
  }

  lemma UpdateKeepsRetired(db: Db, id: nat, title: Option<string>, content: Option<string>, channel: Option<nat>, at: Option<Time>, editor: Editor, d: nat)
    requires Retired(db, d)
    ensures Retired(ApplyUpdatePublished(db, id, title, content, channel, at, editor).db, d)
    ensures ApplyUpdatePublished(db, id, title, content, channel, at, editor).db.sent == db.sent
  {
    UpdateShape(db, id, title, content, channel, at, editor);
    var db' := ApplyUpdatePublished(db, id, title, content, channel, at, editor).db;
    if db' != db {
      RewriteKeepsRetired(db, db', id, Lookup(db, id).value, Lookup(db', id).value, d);
    }
  }

  lemma StepKeepsRetired(db: Db, r: Request, d: nat)
    requires Inv(db) && Keeps(db, r) && Retired(db, d)
    ensures Retired(Apply(db, r), d) && (Stored(d) in Apply(db, r).sent <==> Stored(d) in db.sent)
  {
    match r
    case Publish(id, remote, now) => PublishKeepsRetired(db, id, remote, now, d);
    case PublishDue(remote, now) => PublishEachKeepsRetired(db, DuePosts(db.posts, now, |db.posts|), remote, now, d);
    case Replace(id, channels, content, overrides) => ReplaceKeepsRetired(db, id, channels, content, overrides, d);
    case UpdatePublished(id, title, content, channel, at, editor) => UpdateKeepsRetired(db, id, title, content, channel, at, editor, d);
    case Create(p) =>
      forall k: nat | Lookup(Apply(db, r), k).Some? && !Lookup(Apply(db, r), k).value.status.Published?
        ensures !HasId(Lookup(Apply(db, r), k).value, d)
      {
        assert k < |db.posts| ==> Lookup(db, k) == Lookup(Apply(db, r), k);
      }
    case _ =>
      forall k: nat | Lookup(Apply(db, r), k).Some? && !Lookup(Apply(db, r), k).value.status.Published?
        ensures !HasId(Lookup(Apply(db, r), k).value, d)
      {
        assert Lookup(db, k).Some? && Lookup(db, k).value.deliveries == Lookup(Apply(db, r), k).value.deliveries;
      }
  }

  lemma {:induction false} RunKeepsRetired(db: Db, rs: seq<Request>, d: nat)
    requires Inv(db) && KeepingRun(db, rs) && Retired(db, d)
    ensures Retired(Run(db, rs), d) && (Stored(d) in Run(db, rs).sent <==> Stored(d) in db.sent)
  {
    if rs != [] {
      var n := |rs| - 1;
      KeepingIsAllowed(db, rs, n);
      RunKeepsRetired(db, rs[..n], d);
      RunKeepsInv(db, rs[..n]);
      assert Keeps(Run(db, rs[..n]), rs[n]);
      StepKeepsRetired(Run(db, rs[..n]), rs[n], d);
    }
  }

  lemma RefusedIsUnsent(db: Db, id: nat, remote: Remote, now: Time, a: nat)
    requires Inv(db) && Lookup(db, id).Some? && ApplyPublish(db, id, remote, now).reply.Done?
    requires a < |Lookup(db, id).value.deliveries|
    requires !Sends(db.channels, id, Lookup(db, id).value, Lookup(db, id).value.deliveries[a], remote)
    ensures Stored(Lookup(db, id).value.deliveries[a].id) !in ApplyPublish(db, id, remote, now).db.sent
  {
    var p := Lookup(db, id).value;
    var d := p.deliveries[a].id;
    PublishVerdict(db, id, remote, now);
    assert PostOk(db, id);
    SentWhenAccepted(db.channels, id, p, p.deliveries, remote);
    assert forall i | 0 <= i < |p.deliveries| && Stored(d) == TargetOf(id, p, p.deliveries[i]) :: i == a;
  }

  lemma PublishedIsRetired(db: Db, id: nat, remote: Remote, now: Time, a: nat)
    requires Inv(db) && Lookup(db, id).Some? && ApplyPublish(db, id, remote, now).reply.Done?
    requires a < |Lookup(db, id).value.deliveries|
    ensures Retired(ApplyPublish(db, id, remote, now).db, Lookup(db, id).value.deliveries[a].id)
  {
    var p, db' := Lookup(db, id).value, ApplyPublish(db, id, remote, now).db;
    PublishVerdict(db, id, remote, now);
    assert PostOk(db, id);
    forall k: nat | Lookup(db', k).Some? && !Lookup(db', k).value.status.Published?
      ensures !HasId(Lookup(db', k).value, p.deliveries[a].id)
    {
      assert k != id && Apart(p, Lookup(db, k).value);
    }
  }

  /** A delivery that failed while its post was published on other channels is never sent
      again, whatever a run goes on to do that takes no published status back. */
  lemma FailedDeliveryNeverRetried(db: Db, id: nat, remote: Remote, now: Time, a: nat, rs: seq<Request>)
    requires Inv(db) && Lookup(db, id).Some? && ApplyPublish(db, id, remote, now).reply.Done?
    requires a < |Lookup(db, id).value.deliveries|
    requires !Sends(db.channels, id, Lookup(db, id).value, Lookup(db, id).value.deliveries[a], remote)
    requires KeepingRun(ApplyPublish(db, id, remote, now).db, rs)
    ensures Stored(Lookup(db, id).value.deliveries[a].id) !in Run(ApplyPublish(db, id, remote, now).db, rs).sent
  {
    PublishKeepsInv(db, id, remote, now);
    RefusedIsUnsent(db, id, remote, now, a);
    PublishedIsRetired(db, id, remote, now, a);
    RunKeepsRetired(ApplyPublish(db, id, remote, now).db, rs, Lookup(db, id).value.deliveries[a].id);
  }
}
