/** When a post may be published, which issue each target has, and what publishing then does,
    told from the rows. */
module PublishingReady {
  import opened Common
  import opened Text
  import opened Publishing
  import opened PublishingSafety

  // ---- One target ----------------------------------------------------------------------------

  /** The text sent to a target: its own, or the post's when that is missing or empty. */
  function TextFor(p: Post, own: Option<string>): string {
    if own.Some? && own.value != "" then own.value
    else if p.content.Some? then p.content.value
    else ""
  }

  predicate IsConnected(channels: map<nat, Channel>, c: nat) {
    c in channels && channels[c].status == Connected
  }

  predicate TakesPosts(channels: map<nat, Channel>, c: nat) {
    IsConnected(channels, c) && channels[c].provider in {Instagram, Facebook, Twitter, LinkedIn}
  }

  predicate ForInstagram(channels: map<nat, Channel>, c: nat, text: string) {
    TakesPosts(channels, c) && channels[c].provider == Instagram && HasText(text)
  }

  predicate IsPicture(a: Asset) {
    a.kind == Image || a.kind == Video
  }

  predicate IsWebp(a: Asset) {
    a.mimeType.Some? && Lower(a.mimeType.value) == "image/webp"
  }

  predicate HasAddress(a: Asset) {
    (a.previewUrl.Some? && a.previewUrl.value != "") || (a.driveUrl.Some? && a.driveUrl.value != "")
  }

  predicate Usable(a: Asset) {
    IsPicture(a) && !IsWebp(a)
  }

  predicate AllUsable(assets: seq<Asset>) {
    forall a | a in assets :: Usable(a)
  }

  /** The first asset Instagram does not take. */
  predicate FirstUnusable(assets: seq<Asset>, i: nat) {
    i < |assets| && !Usable(assets[i]) && forall j | 0 <= j < i :: Usable(assets[j])
  }

  predicate StartsUnusable(assets: seq<Asset>, picture: bool) {
    exists i :: 0 <= i < |assets| && FirstUnusable(assets, i) && IsPicture(assets[i]) == picture
  }

  /** Target `c` with text `text` can be published to. */
  predicate TargetReady(channels: map<nat, Channel>, p: Post, c: nat, text: string) {
    && TakesPosts(channels, c) && HasText(text)
    && (channels[c].provider == Instagram ==> p.assets != [] && AllUsable(p.assets) && exists a :: a in p.assets && HasAddress(a))
  }

  /** What is wrong with a target, the first of these that applies. */
  predicate Fails(channels: map<nat, Channel>, p: Post, c: nat, text: string, issue: Issue) {
    match issue
    case ChannelMissing => c !in channels
    case NotConnected => c in channels && channels[c].status != Connected
    case AnalyticsOnly => IsConnected(channels, c) && channels[c].provider in {MetaAds, GoogleAds, GoogleAnalytics, LinkedInAds}
    case ContentRequired => TakesPosts(channels, c) && !HasText(text)
    case AssetRequired => ForInstagram(channels, c, text) && p.assets == []
    case MediaRequired => ForInstagram(channels, c, text) && StartsUnusable(p.assets, false)
    case UnsupportedMedia => ForInstagram(channels, c, text) && StartsUnusable(p.assets, true)
    case MediaUrlRequired => ForInstagram(channels, c, text) && p.assets != [] && AllUsable(p.assets) && forall a | a in p.assets :: !HasAddress(a)
    case NoChannel => false
  }

  predicate SomeAddress(assets: seq<Asset>) {
    exists a :: a in assets && HasAddress(a)
  }

  lemma AddressVerdict(assets: seq<Asset>)
    ensures First(assets, a => HasUrl(a)).Some? <==> SomeAddress(assets)
  {
    var found := First(assets, a => HasUrl(a));
    if found.Some? {
      assert HasAddress(assets[found.value]);
    }
  }

  lemma UnusableVerdict(assets: seq<Asset>)
    ensures var found := First(assets, a => !IsMedia(a) || Lower(Or(a.mimeType, "")) == "image/webp");
            if found.Some? then FirstUnusable(assets, found.value) else AllUsable(assets)
    ensures forall i, j | FirstUnusable(assets, i) && FirstUnusable(assets, j) :: i == j
  {
  }

  lemma AssetVerdict(assets: seq<Asset>)
    ensures AssetIssue(assets) == Some(AssetRequired) <==> assets == []
    ensures AssetIssue(assets) == Some(MediaRequired) <==> StartsUnusable(assets, false)
    ensures AssetIssue(assets) == Some(UnsupportedMedia) <==> StartsUnusable(assets, true)
    ensures AssetIssue(assets) == Some(MediaUrlRequired) <==> assets != [] && AllUsable(assets) && !SomeAddress(assets)
    ensures AssetIssue(assets) == None <==> assets != [] && AllUsable(assets) && SomeAddress(assets)
  {
    UnusableVerdict(assets);
    AddressVerdict(assets);
    forall i: nat | FirstUnusable(assets, i) ensures assets[i] in assets && !AllUsable(assets) {
    }
  }

  lemma ContentVerdict(p: Post, d: Delivery)
    ensures DeliveryContent(p, d) != "" <==> HasText(TextFor(p, d.contentOverride))
  {
    StripsToNothing(TextFor(p, d.contentOverride));
  }

  /** The issue of a target is what is wrong with it. */
  lemma FailureVerdict(channels: map<nat, Channel>, p: Post, d: Delivery, issue: Issue)
    ensures IssueOf(channels, p, d) == Some(issue) <==> Fails(channels, p, d.channel, TextFor(p, d.contentOverride), issue)
  {
    ContentVerdict(p, d);
    AssetVerdict(p.assets);
  }

  /** A target has no issue exactly when it is ready. */
  lemma TargetVerdict(channels: map<nat, Channel>, p: Post, d: Delivery)
    ensures IssueOf(channels, p, d) == None <==> TargetReady(channels, p, d.channel, TextFor(p, d.contentOverride))
  {
    ContentVerdict(p, d);
    AssetVerdict(p.assets);
  }

  // ---- All targets ------------------------------------------------------------------------------

  /** A post goes to each of its deliveries; one without any goes straight to its channel, when
      that exists. */
  predicate HasTarget(channels: map<nat, Channel>, p: Post) {
    p.deliveries != [] || (p.channel.Some? && p.channel.value in channels)
  }

  predicate Ready(channels: map<nat, Channel>, p: Post) {
    && HasTarget(channels, p)
    && (p.deliveries == [] ==> TargetReady(channels, p, p.channel.value, TextFor(p, p.content)))
    && forall d | d in p.deliveries :: TargetReady(channels, p, d.channel, TextFor(p, d.contentOverride))
  }

  lemma TargetsVerdict(channels: map<nat, Channel>, p: Post)
    ensures Targets(channels, p) != [] <==> HasTarget(channels, p)
    ensures Ready(channels, p) <==>
            Targets(channels, p) != [] && forall d | d in Targets(channels, p) :: TargetReady(channels, p, d.channel, TextFor(p, d.contentOverride))
  {
  }

  /** A post has no issues exactly when there is a target and every target is ready. */
  lemma ReadyVerdict(channels: map<nat, Channel>, p: Post)
    ensures PublishabilityIssues(channels, p) == [] <==> Ready(channels, p)
  {
    var ds := Targets(channels, p);
    ReadyMeansChannelsExist(channels, p);
    TargetsVerdict(channels, p);
    forall d ensures IssueOf(channels, p, d) == None <==> TargetReady(channels, p, d.channel, TextFor(p, d.contentOverride)) {
      TargetVerdict(channels, p, d);
    }
    assert forall i | 0 <= i < |ds| :: ds[i] in ds;
  }

  /** The issues are those of the targets that are not ready, in their order: issue `k` is what is
      wrong with target `at[k]`. */
  ghost predicate ListsFailures(channels: map<nat, Channel>, p: Post, ds: seq<Delivery>, issues: seq<Issue>, at: seq<nat>) {
    && |at| == |issues|
    && (forall k, l | 0 <= k < l < |at| :: at[k] < at[l])
    && (forall k | 0 <= k < |at| ::
          at[k] < |ds| && Fails(channels, p, ds[at[k]].channel, TextFor(p, ds[at[k]].contentOverride), issues[k]))
    && (forall i: nat | i < |ds| && i !in at :: TargetReady(channels, p, ds[i].channel, TextFor(p, ds[i].contentOverride)))
  }

  /** The values `f` has on a list, with their places. */
  ghost predicate Lists<D(!new), I(!new)>(ds: seq<D>, f: D -> Option<I>, found: seq<I>, at: seq<nat>) {
    && |at| == |found|
    && (forall k, l | 0 <= k < l < |at| :: at[k] < at[l])
    && (forall k | 0 <= k < |at| :: at[k] < |ds| && f(ds[at[k]]) == Some(found[k]))
    && (forall i: nat | i < |ds| && i !in at :: f(ds[i]) == None)
  }

  lemma ListsOneMore<D(!new), I(!new)>(ds: seq<D>, f: D -> Option<I>, found: seq<I>, at: seq<nat>)
    requires ds != [] && Lists(ds[..|ds| - 1], f, found, at)
    ensures f(ds[|ds| - 1]) == None ==> Lists(ds, f, found, at)
    ensures f(ds[|ds| - 1]).Some? ==> Lists(ds, f, found + [f(ds[|ds| - 1]).value], at + [|ds| - 1])
  {
    var n := |ds| - 1;
    assert forall i: nat | i < n :: ds[..n][i] == ds[i];
    assert forall i: nat | i < |ds| && i !in at + [n] :: i < n && i !in at;
  }

  lemma {:induction false} IssuesAreListed(channels: map<nat, Channel>, p: Post, ds: seq<Delivery>) returns (at: seq<nat>)
    ensures Lists(ds, d => IssueOf(channels, p, d), IssuesOf(channels, p, ds), at)
  {
    at := [];
    if ds != [] {
      var n := |ds| - 1;
      at := IssuesAreListed(channels, p, ds[..n]);
      ListsOneMore(ds, d => IssueOf(channels, p, d), IssuesOf(channels, p, ds[..n]), at);
      at := if IssueOf(channels, p, ds[n]).Some? then at + [n] else at;
    }
  }

  lemma IssuesAreFailures(channels: map<nat, Channel>, p: Post, ds: seq<Delivery>) returns (at: seq<nat>)
    ensures ListsFailures(channels, p, ds, IssuesOf(channels, p, ds), at)
  {
    at := IssuesAreListed(channels, p, ds);
    forall i: nat | i < |ds|
      ensures forall issue :: IssueOf(channels, p, ds[i]) == Some(issue) ==> Fails(channels, p, ds[i].channel, TextFor(p, ds[i].contentOverride), issue)
      ensures IssueOf(channels, p, ds[i]) == None ==> TargetReady(channels, p, ds[i].channel, TextFor(p, ds[i].contentOverride))
    {
      TargetVerdict(channels, p, ds[i]);
      if IssueOf(channels, p, ds[i]).Some? {
        FailureVerdict(channels, p, ds[i], IssueOf(channels, p, ds[i]).value);
      }
    }
  }

  /** The list of issues, told from the data. */
  lemma IssuesVerdict(channels: map<nat, Channel>, p: Post)
    ensures !HasTarget(channels, p) ==> PublishabilityIssues(channels, p) == [NoChannel]
    ensures p.deliveries != [] ==> exists at :: ListsFailures(channels, p, p.deliveries, PublishabilityIssues(channels, p), at)
    ensures p.deliveries == [] && HasTarget(channels, p) && !Ready(channels, p) ==>
              exists issue :: PublishabilityIssues(channels, p) == [issue] && Fails(channels, p, p.channel.value, TextFor(p, p.content), issue)
  {
    TargetsVerdict(channels, p);
    ReadyVerdict(channels, p);
    if p.deliveries != [] {
      var at := IssuesAreFailures(channels, p, p.deliveries);
    } else if HasTarget(channels, p) {
      var d := Targets(channels, p)[0];
      TargetVerdict(channels, p, d);
      if IssueOf(channels, p, d).Some? {
        FailureVerdict(channels, p, d, IssueOf(channels, p, d).value);
      }
      assert IssuesOf(channels, p, []) == [];
    }
  }

  // ---- Publishing -------------------------------------------------------------------------------

  /** What a target is sent as: a stored delivery by its id, a post straight to its channel by its own. */
  predicate Takes(channels: map<nat, Channel>, c: nat, t: Target, remote: Remote) {
    c in channels && channels[c].hasCredentials && remote(t).Accepted?
  }

  /** A delivery tried at `now`: published with the id its remote gave, or failed without one. */
  predicate Tried(channels: map<nat, Channel>, d: Delivery, d': Delivery, remote: Remote, now: Time) {
    && d'.id == d.id && d'.channel == d.channel && d'.contentOverride == d.contentOverride
    && if Takes(channels, d.channel, Stored(d.id), remote) then
         && d'.status == DeliveryPublished && d'.externalId == Some(remote(Stored(d.id)).externalId)
         && d'.publishedAt == Some(now) && d'.error == None
       else d'.status == DeliveryFailed && d'.externalId == None && d'.publishedAt == None && d'.error.Some?
  }

  predicate AllTried(channels: map<nat, Channel>, p: Post, p': Post, remote: Remote, now: Time) {
    |p'.deliveries| == |p.deliveries| && forall i | 0 <= i < |p.deliveries| :: Tried(channels, p.deliveries[i], p'.deliveries[i], remote, now)
  }

  /** `t` is a target of the post and its remote takes it. */
  ghost predicate IsTaken(channels: map<nat, Channel>, id: nat, p: Post, remote: Remote, t: Target) {
    if p.deliveries == [] then t == Direct(id) && p.channel.Some? && Takes(channels, p.channel.value, t, remote)
    else exists d :: d in p.deliveries && t == Stored(d.id) && Takes(channels, d.channel, t, remote)
  }

  /** The first target taken gave this id. */
  ghost predicate GaveId(channels: map<nat, Channel>, id: nat, p: Post, remote: Remote, externalId: string) {
    if p.deliveries == [] then remote(Direct(id)) == Accepted(externalId)
    else
      exists i ::
        && 0 <= i < |p.deliveries| && Takes(channels, p.deliveries[i].channel, Stored(p.deliveries[i].id), remote)
        && remote(Stored(p.deliveries[i].id)) == Accepted(externalId)
        && forall j | 0 <= j < i :: !Takes(channels, p.deliveries[j].channel, Stored(p.deliveries[j].id), remote)
  }

  lemma SendsVerdict(channels: map<nat, Channel>, id: nat, p: Post, d: Delivery, remote: Remote)
    ensures Sends(channels, id, p, d, remote) <==>
            Takes(channels, d.channel, if p.deliveries == [] then Direct(id) else Stored(d.id), remote)
    ensures Sends(channels, id, p, d, remote) ==>
            Send(channels[d.channel], TargetOf(id, p, d), remote) == remote(if p.deliveries == [] then Direct(id) else Stored(d.id))
  {
  }

  lemma TakenAreSent(channels: map<nat, Channel>, id: nat, p: Post, remote: Remote)
    requires HasTarget(channels, p)
    ensures forall t :: t in SentTargets(channels, id, p, Targets(channels, p), remote) <==> IsTaken(channels, id, p, remote, t)
  {
    var ds := Targets(channels, p);
    SentWhenAccepted(channels, id, p, ds, remote);
    forall d ensures Sends(channels, id, p, d, remote) <==>
                     Takes(channels, d.channel, if p.deliveries == [] then Direct(id) else Stored(d.id), remote) {
      SendsVerdict(channels, id, p, d, remote);
    }
    forall t ensures t in SentTargets(channels, id, p, ds, remote) <==> IsTaken(channels, id, p, remote, t) {
      if d :| d in p.deliveries && t == Stored(d.id) && Takes(channels, d.channel, t, remote) {
        var i :| 0 <= i < |ds| && ds[i] == d;
      }
    }
  }

  /** Publishing, told from the data.  It does something only to an unpublished post that is ready; it
      succeeds exactly when some target is taken, tries every delivery, and changes nothing of the post
      but its deliveries, status, time and id. */
  lemma PublishingVerdict(db: Db, id: nat, remote: Remote, now: Time)
    requires Lookup(db, id).Some?
    ensures var p, out := Lookup(db, id).value, ApplyPublish(db, id, remote, now);
            var tries := p.status != Published && Ready(db.channels, p);
            && (out.reply == AlreadyPublished <==> p.status == Published)
            && (out.reply.NotReady? <==> p.status != Published && !Ready(db.channels, p))
            && (out.reply == Done <==> tries && exists t :: IsTaken(db.channels, id, p, remote, t))
            && (out.reply == AllFailed <==> tries && forall t :: !IsTaken(db.channels, id, p, remote, t))
            && (!tries ==> out.db == db)
  {
    var p := Lookup(db, id).value;
    ReadyVerdict(db.channels, p);
    if Ready(db.channels, p) {
      TakenAreSent(db.channels, id, p, remote);
      assert SentTargets(db.channels, id, p, Targets(db.channels, p), remote) != [] ==>
        SentTargets(db.channels, id, p, Targets(db.channels, p), remote)[0] in SentTargets(db.channels, id, p, Targets(db.channels, p), remote);
    }
  }

  lemma TriedVerdict(channels: map<nat, Channel>, id: nat, p: Post, d: Delivery, remote: Remote, now: Time)
    requires p.deliveries != [] && d.channel in channels
    ensures Tried(channels, d, Deliver(channels, id, p, d, remote, now), remote, now)
  {
  }

  lemma PrimaryVerdict(channels: map<nat, Channel>, id: nat, p: Post, remote: Remote)
    requires HasTarget(channels, p) && PrimaryId(channels, id, p, Targets(channels, p), remote).Some?
    ensures GaveId(channels, id, p, remote, PrimaryId(channels, id, p, Targets(channels, p), remote).value)
  {
    var ds := Targets(channels, p);
    forall d ensures Sends(channels, id, p, d, remote) <==>
                     Takes(channels, d.channel, if p.deliveries == [] then Direct(id) else Stored(d.id), remote) {
      SendsVerdict(channels, id, p, d, remote);
    }
  }

  lemma DeliveriesVerdict(db: Db, id: nat, remote: Remote, now: Time)
    requires Lookup(db, id).Some?
    requires ApplyPublish(db, id, remote, now).reply in {Done, AllFailed}
    ensures Lookup(ApplyPublish(db, id, remote, now).db, id).Some?
    ensures AllTried(db.channels, Lookup(db, id).value, Lookup(ApplyPublish(db, id, remote, now).db, id).value, remote, now)
  {
    var p := Lookup(db, id).value;
    ReadyMeansChannelsExist(db.channels, p);
    if p.deliveries != [] {
      forall i | 0 <= i < |p.deliveries|
        ensures Tried(db.channels, p.deliveries[i], Deliver(db.channels, id, p, p.deliveries[i], remote, now), remote, now)
      {
        assert p.deliveries[i] == Targets(db.channels, p)[i];
        TriedVerdict(db.channels, id, p, p.deliveries[i], remote, now);
      }
    }
  }

  lemma PublishedPost(db: Db, id: nat, remote: Remote, now: Time)
    requires Lookup(db, id).Some?
    requires ApplyPublish(db, id, remote, now).reply in {Done, AllFailed}
    ensures var p, out := Lookup(db, id).value, ApplyPublish(db, id, remote, now);
            && Lookup(out.db, id).Some?
            && var p' := Lookup(out.db, id).value;
               if out.reply == Done then
                 && p' == p.(deliveries := p'.deliveries, status := Published, publishedAt := Some(now), externalId := p'.externalId)
                 && p'.externalId.Some? && GaveId(db.channels, id, p, remote, p'.externalId.value)
               else p' == p.(deliveries := p'.deliveries)
  {
    var p, out := Lookup(db, id).value, ApplyPublish(db, id, remote, now);
    if out.reply == Done {
      TargetsVerdict(db.channels, p);
      SentWhenAccepted(db.channels, id, p, Targets(db.channels, p), remote);
      ReadyMeansChannelsExist(db.channels, p);
      PrimaryVerdict(db.channels, id, p, remote);
    }
  }

  lemma PublishedLog(db: Db, id: nat, remote: Remote, now: Time)
    requires Lookup(db, id).Some?
    requires ApplyPublish(db, id, remote, now).reply in {Done, AllFailed}
    ensures var p, out := Lookup(db, id).value, ApplyPublish(db, id, remote, now);
            && db.sent <= out.db.sent
            && (forall t :: t in out.db.sent[|db.sent|..] <==> IsTaken(db.channels, id, p, remote, t))
            && out.db.channels == db.channels && |out.db.posts| == |db.posts|
            && (forall k | 0 <= k < |db.posts| && k != id :: out.db.posts[k] == db.posts[k])
  {
    var p := Lookup(db, id).value;
    ReadyMeansChannelsExist(db.channels, p);
    TargetsVerdict(db.channels, p);
    TakenAreSent(db.channels, id, p, remote);
  }

  /** What publishing leaves: the post with its deliveries tried and, when one was taken, marked published
      under the first id given; what the remotes have; and nothing else changed. */
  lemma PublishedVerdict(db: Db, id: nat, remote: Remote, now: Time)
    requires Lookup(db, id).Some?
    requires ApplyPublish(db, id, remote, now).reply in {Done, AllFailed}
    ensures var p, out := Lookup(db, id).value, ApplyPublish(db, id, remote, now);
            && Lookup(out.db, id).Some?
            && var p' := Lookup(out.db, id).value;
            && AllTried(db.channels, p, p', remote, now)
            && (if out.reply == Done then
                  && p' == p.(deliveries := p'.deliveries, status := Published, publishedAt := Some(now), externalId := p'.externalId)
                  && p'.externalId.Some? && GaveId(db.channels, id, p, remote, p'.externalId.value)
                else p' == p.(deliveries := p'.deliveries))
            && db.sent <= out.db.sent
            && (forall t :: t in out.db.sent[|db.sent|..] <==> IsTaken(db.channels, id, p, remote, t))
            && out.db.channels == db.channels && |out.db.posts| == |db.posts|
            && (forall k | 0 <= k < |db.posts| && k != id :: out.db.posts[k] == db.posts[k])
  {
    DeliveriesVerdict(db, id, remote, now);
    PublishedPost(db, id, remote, now);
    PublishedLog(db, id, remote, now);
  }
}
