/** Publishing posts to their channels (app/services/publishing_service.py,
    app/services/post_service.py).

    What the remote networks answer is given by an oracle, and `sent` records every delivery
    they accepted: it cannot be taken back. */
module Publishing {
  import opened Common
  import opened Text

  type Time = int

  datatype Provider =
    | Instagram | Facebook | MetaAds | Twitter | LinkedIn | GoogleAds | GoogleAnalytics | LinkedInAds

  datatype ChannelStatus = Connected | Disconnected | Errored

  datatype Channel = Channel(provider: Provider, status: ChannelStatus, hasCredentials: bool)

  datatype AssetType = Image | Video | Document | Template | BrandGuide

  datatype Asset = Asset(kind: AssetType, mimeType: Option<string>, driveUrl: Option<string>, previewUrl: Option<string>)

  datatype DeliveryStatus = DeliveryDraft | DeliveryPlanned | DeliveryPublished | DeliveryFailed

  datatype Delivery = Delivery(
    id: nat,
    channel: nat,
    contentOverride: Option<string>,
    status: DeliveryStatus,
    externalId: Option<string>,
    publishedAt: Option<Time>,
    error: Option<string>)

  datatype PostStatus = Draft | Planned | Published

  datatype Post = Post(
    channel: Option<nat>,
    title: string,
    content: Option<string>,
    status: PostStatus,
    scheduledAt: Option<Time>,
    publishedAt: Option<Time>,
    externalId: Option<string>,
    deliveries: seq<Delivery>,
    assets: seq<Asset>)

  /** What is sent: a stored delivery, or a post straight to its own channel. */
  datatype Target = Stored(delivery: nat) | Direct(post: nat)

  datatype Answer = Accepted(externalId: string) | Refused(message: string)

  type Remote = Target -> Answer

  /** `posts[i]` is post `i`, or nothing once it is deleted. */
  datatype Db = Db(posts: seq<Option<Post>>, channels: map<nat, Channel>, nextDelivery: nat, sent: seq<Target>)

  datatype Issue =
    | ChannelMissing | NotConnected | AnalyticsOnly | ContentRequired
    | AssetRequired | MediaRequired | UnsupportedMedia | MediaUrlRequired | NoChannel

  datatype Reply =
    | Done
    | PostNotFound
    | AlreadyPublished
    | NotReady(issues: seq<Issue>)
    | AllFailed
    | PublishedIds(ids: seq<nat>)
    | NotPublished
    | ContentMissing
    | SeveralDeliveries
    | TargetMissing
    | RemoteIdMissing
    | WrongChannel
    | ChannelNotConnected
    | Unsupported
    | RemoteError

  datatype Outcome = Outcome(db: Db, reply: Reply)

  // ---- Is a post ready? ------------------------------------------------------------------------

  function DeliveryContent(p: Post, d: Delivery): string {
    Strip(Or(d.contentOverride, Or(p.content, "")))
  }

  predicate Publishable(provider: Provider) {
    provider == Instagram || provider == Facebook || provider == Twitter || provider == LinkedIn
  }

  predicate IsMedia(a: Asset) {
    a.kind.Image? || a.kind.Video?
  }

  predicate HasUrl(a: Asset) {
    Or(a.previewUrl, Or(a.driveUrl, "")) != ""
  }

  function AssetIssue(assets: seq<Asset>): Option<Issue> {
    if assets == [] then Some(AssetRequired)
    else
      match First(assets, a => !IsMedia(a) || Lower(Or(a.mimeType, "")) == "image/webp")
      case Some(i) => Some(if IsMedia(assets[i]) then UnsupportedMedia else MediaRequired)
      case None => if First(assets, a => HasUrl(a)).None? then Some(MediaUrlRequired) else None
  }

  function IssueOf(channels: map<nat, Channel>, p: Post, d: Delivery): Option<Issue> {
    if d.channel !in channels then Some(ChannelMissing)
    else
      var c := channels[d.channel];
      if !c.status.Connected? then Some(NotConnected)
      else if !Publishable(c.provider) then Some(AnalyticsOnly)
      else if DeliveryContent(p, d) == "" then Some(ContentRequired)
      else if c.provider.Instagram? then AssetIssue(p.assets)
      else None
  }

  /** The delivery made up for a post that has a channel and no deliveries.  Whether it is
      stored afterwards is not modelled. */
  function DirectDelivery(p: Post, channel: nat): Delivery {
    Delivery(0, channel, p.content, DeliveryDraft, None, None, None)
  }

  predicate GoesDirect(channels: map<nat, Channel>, p: Post) {
    p.deliveries == [] && p.channel.Some? && p.channel.value in channels
  }

  function Targets(channels: map<nat, Channel>, p: Post): seq<Delivery> {
    if GoesDirect(channels, p) then [DirectDelivery(p, p.channel.value)] else p.deliveries
  }

  function IssuesOf(channels: map<nat, Channel>, p: Post, ds: seq<Delivery>): seq<Issue> {
    if ds == [] then []
    else
      var last := |ds| - 1;
      IssuesOf(channels, p, ds[..last])
      + (match IssueOf(channels, p, ds[last]) case Some(issue) => [issue] case None => [])
  }

  function PublishabilityIssues(channels: map<nat, Channel>, p: Post): seq<Issue> {
    if Targets(channels, p) == [] then [NoChannel] else IssuesOf(channels, p, Targets(channels, p))
  }

  // ---- Sending ---------------------------------------------------------------------------------

  function TargetOf(id: nat, p: Post, d: Delivery): Target {
    if p.deliveries == [] then Direct(id) else Stored(d.id)
  }

  /** Building the adapter fails without credentials, before anything is sent. */
  function Send(c: Channel, t: Target, remote: Remote): Answer {
    if c.hasCredentials then remote(t) else Refused("no credentials")
  }

  function Deliver(channels: map<nat, Channel>, id: nat, p: Post, d: Delivery, remote: Remote, now: Time): Delivery {
    if d.channel !in channels then
      d.(status := DeliveryFailed, error := Some("channel not found"))
    else
      match Send(channels[d.channel], TargetOf(id, p, d), remote)
      case Refused(message) =>
        d.(status := DeliveryFailed, error := Some(message), externalId := None, publishedAt := None)
      case Accepted(externalId) =>
        d.(status := DeliveryPublished, externalId := Some(externalId), publishedAt := Some(now), error := None)
  }

  predicate Sends(channels: map<nat, Channel>, id: nat, p: Post, d: Delivery, remote: Remote) {
    d.channel in channels && Send(channels[d.channel], TargetOf(id, p, d), remote).Accepted?
  }

  function DeliverAll(channels: map<nat, Channel>, id: nat, p: Post, ds: seq<Delivery>, remote: Remote, now: Time): (r: seq<Delivery>)
    ensures |r| == |ds|
  {
    seq(|ds|, i requires 0 <= i < |ds| => Deliver(channels, id, p, ds[i], remote, now))
  }

  function SentTargets(channels: map<nat, Channel>, id: nat, p: Post, ds: seq<Delivery>, remote: Remote): seq<Target> {
    if ds == [] then []
    else
      var last := |ds| - 1;
      SentTargets(channels, id, p, ds[..last], remote)
      + (if Sends(channels, id, p, ds[last], remote) then [TargetOf(id, p, ds[last])] else [])
  }

  /** The id the remote gave to the first delivery it accepted. */
  function PrimaryId(channels: map<nat, Channel>, id: nat, p: Post, ds: seq<Delivery>, remote: Remote): Option<string> {
    match First(ds, d => Sends(channels, id, p, d, remote))
    case None => None
    case Some(i) => Some(Send(channels[ds[i].channel], TargetOf(id, p, ds[i]), remote).externalId)
  }

  function Lookup(db: Db, id: nat): Option<Post> {
    if id < |db.posts| then db.posts[id] else None
  }

  function WithPost(db: Db, id: nat, p: Post): Db {
    if id < |db.posts| then db.(posts := db.posts[id := Some(p)]) else db
  }

  function ApplyPublish(db: Db, id: nat, remote: Remote, now: Time): Outcome {
    match Lookup(db, id)
    case None => Outcome(db, PostNotFound)
    case Some(p) =>
      if p.status.Published? then Outcome(db, AlreadyPublished)
      else if PublishabilityIssues(db.channels, p) != [] then Outcome(db, NotReady(PublishabilityIssues(db.channels, p)))
      else
        var ds := Targets(db.channels, p);
        var delivered := DeliverAll(db.channels, id, p, ds, remote, now);
        var kept := p.(deliveries := if p.deliveries == [] then [] else delivered);
        var sent := SentTargets(db.channels, id, p, ds, remote);
        if sent == [] then Outcome(WithPost(db, id, kept), AllFailed)
        else
          var published := kept.(status := Published, publishedAt := Some(now),
                                 externalId := PrimaryId(db.channels, id, p, ds, remote));
          Outcome(WithPost(db, id, published).(sent := db.sent + sent), Done)
  }

  // ---- Due posts --------------------------------------------------------------------------------

  predicate IsDue(p: Option<Post>, now: Time) {
    p.Some? && p.value.status.Planned? && p.value.scheduledAt.Some? && p.value.scheduledAt.value <= now
  }

  function Schedule(posts: seq<Option<Post>>, i: nat): Time {
    if i < |posts| && posts[i].Some? && posts[i].value.scheduledAt.Some? then posts[i].value.scheduledAt.value else 0
  }

  function InsertDue(posts: seq<Option<Post>>, ids: seq<nat>, id: nat): seq<nat> {
    if ids == [] || Schedule(posts, ids[|ids| - 1]) <= Schedule(posts, id) then ids + [id]
    else InsertDue(posts, ids[..|ids| - 1], id) + [ids[|ids| - 1]]
  }

  /** Among the first `n` posts, those due, by time of schedule. */
  function DuePosts(posts: seq<Option<Post>>, now: Time, n: nat): seq<nat>
    requires n <= |posts|
  {
    if n == 0 then []
    else if IsDue(posts[n - 1], now) then InsertDue(posts, DuePosts(posts, now, n - 1), n - 1)
    else DuePosts(posts, now, n - 1)
  }

  function PublishEach(db: Db, ids: seq<nat>, remote: Remote, now: Time): Outcome {
    if ids == [] then Outcome(db, PublishedIds([]))
    else
      var before := PublishEach(db, ids[..|ids| - 1], remote, now);
      var done := if before.reply.PublishedIds? then before.reply.ids else [];
      var out := ApplyPublish(before.db, ids[|ids| - 1], remote, now);
      Outcome(out.db, PublishedIds(if out.reply.Done? then done + [ids[|ids| - 1]] else done))
  }

  function ApplyPublishDue(db: Db, remote: Remote, now: Time): Outcome {
    PublishEach(db, DuePosts(db.posts, now, |db.posts|), remote, now)
  }

  // ---- Choosing channels ---------------------------------------------------------------------------

  /** The selection without repeats, in order of first mention. */
  function Dedupe(channels: seq<nat>): seq<nat> {
    if channels == [] then []
    else
      var last := channels[|channels| - 1];
      var init := Dedupe(channels[..|channels| - 1]);
      if last in init then init else init + [last]
  }

  function Override(overrides: map<nat, string>, channel: nat): Option<string> {
    NonEmpty(Clean(if channel in overrides then Some(overrides[channel]) else None))
  }

  function InitialStatus(p: Post): DeliveryStatus {
    if p.status.Planned? then DeliveryPlanned else DeliveryDraft
  }

  /** The delivery that stands for its channel: the last one listed for it. */
  predicate Represents(ds: seq<Delivery>, i: nat)
    requires i < |ds|
  {
    forall j | i < j < |ds| :: ds[j].channel != ds[i].channel
  }

  function Refit(p: Post, d: Delivery, overrides: map<nat, string>): Delivery {
    var d' := d.(contentOverride := Override(overrides, d.channel));
    if d.status.DeliveryPublished? then d' else d'.(status := InitialStatus(p))
  }

  /** What is left of the first `n` deliveries. */
  function KeptDeliveries(p: Post, selected: seq<nat>, overrides: map<nat, string>, n: nat): seq<Delivery>
    requires n <= |p.deliveries|
  {
    if n == 0 then []
    else
      var d := p.deliveries[n - 1];
      var before := KeptDeliveries(p, selected, overrides, n - 1);
      if !Represents(p.deliveries, n - 1) then before + [d]
      else if d.channel in selected then before + [Refit(p, d, overrides)]
      else before
  }

  predicate HasChannel(ds: seq<Delivery>, channel: nat) {
    exists i :: 0 <= i < |ds| && ds[i].channel == channel
  }

  function NewDelivery(p: Post, channel: nat, content: Option<string>, overrides: map<nat, string>, id: nat): Delivery {
    var override := Override(overrides, channel);
    Delivery(id, channel, if override.Some? then override else content, InitialStatus(p), None, None, None)
  }

  /** Deliveries for the selected channels that have none, for channels that exist. */
  function AddedDeliveries(db: Db, p: Post, selected: seq<nat>, content: Option<string>, overrides: map<nat, string>): seq<Delivery> {
    if selected == [] then []
    else
      var last := selected[|selected| - 1];
      var before := AddedDeliveries(db, p, selected[..|selected| - 1], content, overrides);
      if HasChannel(p.deliveries, last) || last !in db.channels then before
      else before + [NewDelivery(p, last, content, overrides, db.nextDelivery + |before|)]
  }

  function ApplyReplace(db: Db, id: nat, channels: seq<nat>, content: Option<string>, overrides: map<nat, string>): Outcome {
    match Lookup(db, id)
    case None => Outcome(db, PostNotFound)
    case Some(p) =>
      var selected := Dedupe(channels);
      var added := AddedDeliveries(db, p, selected, content, overrides);
      var ds := KeptDeliveries(p, selected, overrides, |p.deliveries|) + added;
      Outcome(WithPost(db, id, p.(deliveries := ds)).(nextDelivery := db.nextDelivery + |added|), Done)
  }

  function ApplyReschedule(db: Db, id: nat, at: Time): Outcome {
    match Lookup(db, id)
    case None => Outcome(db, PostNotFound)
    case Some(p) => Outcome(WithPost(db, id, p.(scheduledAt := Some(at))), Done)
  }

  // ---- Editing what is out -----------------------------------------------------------------------

  /** The one remote post that stands for a published post, or why there is none. */
  datatype Single = Single(place: nat, remoteId: string) | NoSingle(reason: Reply)

  /** What the remote answers to a change of a post: an error, or possibly a new id. */
  type Editor = string -> Option<Option<string>>

  function SingleAt(channels: map<nat, Channel>, channel: nat, remoteId: string): Single {
    if channel !in channels then NoSingle(TargetMissing)
    else if remoteId == "" then NoSingle(RemoteIdMissing)
    else Single(channel, remoteId)
  }

  function SinglePublishedTarget(channels: map<nat, Channel>, p: Post): Single {
    if |p.deliveries| > 1 then NoSingle(SeveralDeliveries)
    else if |p.deliveries| == 1 then
      SingleAt(channels, p.deliveries[0].channel, Or(p.deliveries[0].externalId, Or(p.externalId, "")))
    else
      match p.channel
      case None => NoSingle(TargetMissing)
      case Some(c) => SingleAt(channels, c, Or(p.externalId, ""))
  }

  predicate SupportsChanges(provider: Provider) {
    provider == Facebook || provider == Twitter || provider == LinkedIn
  }

  /** Why a change cannot reach a channel, if it cannot. */
  function ChangeRefused(c: Channel): Option<Reply> {
    if !c.status.Connected? then Some(ChannelNotConnected)
    else if !c.hasCredentials then Some(RemoteError)
    else if !SupportsChanges(c.provider) then Some(Unsupported)
    else None
  }

  function Edited(p: Post, title: Option<string>, content: string, scheduledAt: Option<Time>, newId: Option<string>): Post {
    var given := Or(newId, "") != "";
    p.(title := if title.Some? then title.value else p.title,
    content := Some(content),
    scheduledAt := scheduledAt,
    externalId := if given then newId else p.externalId,
    deliveries := if |p.deliveries| != 1 then p.deliveries else
      [p.deliveries[0].(contentOverride := Some(content), externalId := if given then newId else p.deliveries[0].externalId)])
  }

  function ApplyUpdatePublished(db: Db, id: nat, title: Option<string>, content: Option<string>, channel: Option<nat>,
                                scheduledAt: Option<Time>, remote: Editor): Outcome {
    match Lookup(db, id)
    case None => Outcome(db, PostNotFound)
    case Some(p) =>
      if !p.status.Published? then Outcome(db, NotPublished)
      else if Clean(content) == "" then Outcome(db, ContentMissing)
      else
        match SinglePublishedTarget(db.channels, p)
        case NoSingle(reason) => Outcome(db, reason)
        case Single(place, remoteId) =>
          if channel.Some? && channel.value != place then Outcome(db, WrongChannel)
          else if place in db.channels && ChangeRefused(db.channels[place]).Some? then
            Outcome(db, ChangeRefused(db.channels[place]).value)
          else
            match remote(remoteId)
            case None => Outcome(db, RemoteError)
            case Some(newId) => Outcome(WithPost(db, id, Edited(p, title, Or(content, ""), scheduledAt, newId)), Done)
  }

  function ApplyDeletePublished(db: Db, id: nat, remote: string -> bool): Outcome {
    match Lookup(db, id)
    case None => Outcome(db, PostNotFound)
    case Some(p) =>
      if !p.status.Published? then Outcome(db, NotPublished)
      else
        match SinglePublishedTarget(db.channels, p)
        case NoSingle(reason) => Outcome(db, reason)
        case Single(place, remoteId) =>
          if place in db.channels && ChangeRefused(db.channels[place]).Some? then
            Outcome(db, ChangeRefused(db.channels[place]).value)
          else if !remote(remoteId) then Outcome(db, RemoteError)
          else Outcome(db.(posts := if id < |db.posts| then db.posts[id := None] else db.posts), Done)
  }
}
