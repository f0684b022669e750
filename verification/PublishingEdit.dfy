/** Editing and deleting what is out: the change reaches the remote post that stands for the
    published one, and later changes go on reaching it. */
module PublishingEdit {
  import opened Common
  import opened Text
  import opened Publishing
  import opened PublishingSafety
  import opened PublishingReady

  /** After publishing to one channel, a change addresses that channel and the id its remote gave. */
  lemma ChangeReachesWhatWasPublished(db: Db, id: nat, remote: Remote, now: Time)
    requires Lookup(db, id).Some? && ApplyPublish(db, id, remote, now).reply.Done?
    ensures var p := Lookup(db, id).value;
            var p' := Lookup(ApplyPublish(db, id, remote, now).db, id).value;
            if |p.deliveries| > 1 then SinglePublishedTarget(db.channels, p') == NoSingle(SeveralDeliveries)
            else
              && |Targets(db.channels, p)| == 1
              && var d := Targets(db.channels, p)[0];
                 && remote(TargetOf(id, p, d)).Accepted?
                 && var newId := remote(TargetOf(id, p, d)).externalId;
                    SinglePublishedTarget(db.channels, p') == (if newId == "" then NoSingle(RemoteIdMissing) else Single(d.channel, newId))
  {
    var p := Lookup(db, id).value;
    var p' := Lookup(ApplyPublish(db, id, remote, now).db, id).value;
    var ds := Targets(db.channels, p);
    PublishVerdict(db, id, remote, now);
    ReadyMeansChannelsExist(db.channels, p);
    if |p.deliveries| <= 1 {
      assert |ds| == 1;
      assert p.deliveries != [] ==> ds == p.deliveries;
      assert PrimaryId(db.channels, id, p, ds, remote) == p'.externalId;
    }
  }

  /** A change either changes nothing here, or was accepted by the remote at the id the post stood
      for, on a connected channel; the post then stands for the id the remote answered, or still
      for the old one. */
  lemma ChangesFollowTheRemote(db: Db, id: nat, title: Option<string>, content: Option<string>, channel: Option<nat>,
                               at: Option<Time>, remote: Editor)
    ensures var out := ApplyUpdatePublished(db, id, title, content, channel, at, remote);
            if !out.reply.Done? then out.db == db
            else
              && Lookup(db, id).Some? && Lookup(out.db, id).Some?
              && var before := SinglePublishedTarget(db.channels, Lookup(db, id).value);
                 && before.Single? && (channel.Some? ==> channel.value == before.place)
                 && before.place in db.channels && ChangeRefused(db.channels[before.place]).None?
                 && remote(before.remoteId).Some?
                 && SinglePublishedTarget(out.db.channels, Lookup(out.db, id).value)
                    == Single(before.place, if Or(remote(before.remoteId).value, "") != "" then remote(before.remoteId).value.value else before.remoteId)
  {
  }

  /** A deletion takes the post away exactly when the remote has taken its single remote post away,
      and touches no other post. */
  lemma DeletionFollowsTheRemote(db: Db, id: nat, remote: string -> bool)
    requires Lookup(db, id).Some?
    ensures var p, out := Lookup(db, id).value, ApplyDeletePublished(db, id, remote);
            var target := SinglePublishedTarget(db.channels, p);
            && (out.reply.Done? <==> p.status.Published? && target.Single? && ChangeRefused(db.channels[target.place]).None? && remote(target.remoteId))
            && (Lookup(out.db, id).None? <==> out.reply.Done?)
            && (forall k: nat | k != id :: Lookup(out.db, k) == Lookup(db, k))
            && out.db.sent == db.sent
  {
    assert SinglePublishedTarget(db.channels, Lookup(db, id).value).NoSingle? ==>
             !SinglePublishedTarget(db.channels, Lookup(db, id).value).reason.Done?;
  }

  // ---- When a change happens, told from the rows ------------------------------------------------

  /** The post is out on channel `c` alone, under the id `remoteId`: that of its one delivery or,
      when this has none, its own. */
  predicate IsOut(p: Post, c: nat, remoteId: string) {
    && remoteId != ""
    && if |p.deliveries| == 1 then
         && c == p.deliveries[0].channel
         && (p.deliveries[0].externalId == Some(remoteId)
             || (p.deliveries[0].externalId in {None, Some("")} && p.externalId == Some(remoteId)))
       else p.deliveries == [] && p.channel == Some(c) && p.externalId == Some(remoteId)
  }

  predicate Changeable(channels: map<nat, Channel>, c: nat) {
    IsConnected(channels, c) && channels[c].hasCredentials && channels[c].provider in {Facebook, Twitter, LinkedIn}
  }

  lemma SingleVerdict(channels: map<nat, Channel>, p: Post)
    ensures forall c: nat, remoteId :: SinglePublishedTarget(channels, p) == Single(c, remoteId) <==> c in channels && IsOut(p, c, remoteId)
    ensures SinglePublishedTarget(channels, p).NoSingle? ==> !SinglePublishedTarget(channels, p).reason.Done?
  {
  }

  lemma ChangeableVerdict(channels: map<nat, Channel>, c: nat)
    requires c in channels
    ensures ChangeRefused(channels[c]) == None <==> Changeable(channels, c)
    ensures ChangeRefused(channels[c]) != Some(Done)
  {
  }

  /** The remote takes an edit of the post. */
  ghost predicate EditTaken(db: Db, p: Post, channel: Option<nat>, remote: Editor) {
    exists c: nat, remoteId :: IsOut(p, c, remoteId) && channel in {None, Some(c)} && Changeable(db.channels, c) && remote(remoteId).Some?
  }

  /** A published post is edited exactly when its new content is not blank and the remote takes the edit. */
  lemma EditVerdict(db: Db, id: nat, title: Option<string>, content: Option<string>, channel: Option<nat>,
                    at: Option<Time>, remote: Editor)
    requires Lookup(db, id).Some?
    ensures var p := Lookup(db, id).value;
            ApplyUpdatePublished(db, id, title, content, channel, at, remote).reply == Done <==>
            p.status == Published && content.Some? && HasText(content.value) && EditTaken(db, p, channel, remote)
  {
    var p := Lookup(db, id).value;
    SingleVerdict(db.channels, p);
    StripsToNothing(Or(content, ""));
    forall c | c in db.channels ensures (ChangeRefused(db.channels[c]) == None <==> Changeable(db.channels, c)) && ChangeRefused(db.channels[c]) != Some(Done) {
      ChangeableVerdict(db.channels, c);
    }
  }

  /** The id the remote answered to the edit, or the old one when it answered none. */
  predicate NewOrOld(answer: Option<string>, before: Option<string>, after: Option<string>) {
    if answer.Some? && answer.value != "" then after == answer else after == before
  }

  /** An edit writes title (when given), content, schedule and id, and the text and id of a sole delivery;
      it leaves the rest of the post and every other post as they were. */
  lemma EditedVerdict(db: Db, id: nat, title: Option<string>, content: Option<string>, channel: Option<nat>,
                      at: Option<Time>, remote: Editor, c: nat, remoteId: string)
    requires Lookup(db, id).Some? && IsOut(Lookup(db, id).value, c, remoteId)
    requires ApplyUpdatePublished(db, id, title, content, channel, at, remote).reply == Done
    ensures var p, db' := Lookup(db, id).value, ApplyUpdatePublished(db, id, title, content, channel, at, remote).db;
            && remote(remoteId).Some? && Lookup(db', id).Some?
            && var answer, p' := remote(remoteId).value, Lookup(db', id).value;
            && p'.title == (if title.Some? then title.value else p.title)
            && p'.content == content && p'.scheduledAt == at && NewOrOld(answer, p.externalId, p'.externalId)
            && p'.channel == p.channel && p'.status == p.status && p'.publishedAt == p.publishedAt && p'.assets == p.assets
            && |p'.deliveries| == |p.deliveries|
            && (p.deliveries != [] ==>
                  && p'.deliveries[0] == p.deliveries[0].(contentOverride := content, externalId := p'.deliveries[0].externalId)
                  && NewOrOld(answer, p.deliveries[0].externalId, p'.deliveries[0].externalId))
            && db' == db.(posts := db'.posts) && |db'.posts| == |db.posts|
            && (forall k | 0 <= k < |db.posts| && k != id :: db'.posts[k] == db.posts[k])
  {
    SingleVerdict(db.channels, Lookup(db, id).value);
    StripsToNothing(Or(content, ""));
    ChangesFollowTheRemote(db, id, title, content, channel, at, remote);
  }

  /** A published post is deleted exactly when it is out on one changeable channel and the remote takes
      the deletion. */
  lemma DeletedVerdict(db: Db, id: nat, remote: string -> bool)
    requires Lookup(db, id).Some?
    ensures var p := Lookup(db, id).value;
            ApplyDeletePublished(db, id, remote).reply == Done <==>
            p.status == Published && exists c: nat, remoteId :: IsOut(p, c, remoteId) && Changeable(db.channels, c) && remote(remoteId)
  {
    var p := Lookup(db, id).value;
    SingleVerdict(db.channels, p);
    DeletionFollowsTheRemote(db, id, remote);
    forall c | c in db.channels ensures ChangeRefused(db.channels[c]) == None <==> Changeable(db.channels, c) {
      ChangeableVerdict(db.channels, c);
    }
  }

  // ---- Why a change is refused -----------------------------------------------------------------------

  /** The post went to channel `c` alone. */
  predicate Stands(p: Post, c: nat) {
    if |p.deliveries| == 1 then c == p.deliveries[0].channel else p.deliveries == [] && p.channel == Some(c)
  }

  predicate StandsSomewhere(channels: map<nat, Channel>, p: Post) {
    exists c :: c in channels && Stands(p, c)
  }

  ghost predicate IsOutOn(channels: map<nat, Channel>, p: Post, c: nat) {
    c in channels && exists remoteId :: IsOut(p, c, remoteId)
  }

  /** Why there is no single remote post to change. */
  ghost predicate NoSingleBecause(channels: map<nat, Channel>, p: Post, reason: Reply) {
    match reason
    case SeveralDeliveries => |p.deliveries| >= 2
    case TargetMissing => |p.deliveries| <= 1 && !StandsSomewhere(channels, p)
    case RemoteIdMissing => StandsSomewhere(channels, p) && forall c: nat :: !IsOutOn(channels, p, c)
    case _ => false
  }

  lemma OutVerdict(channels: map<nat, Channel>, p: Post, c: nat)
    ensures IsOutOn(channels, p, c) <==> SinglePublishedTarget(channels, p).Single? && SinglePublishedTarget(channels, p).place == c
  {
    SingleVerdict(channels, p);
    var found := SinglePublishedTarget(channels, p);
    assert found.Single? ==> IsOut(p, found.place, found.remoteId);
  }

  lemma NoSingleVerdict(channels: map<nat, Channel>, p: Post, reason: Reply)
    ensures SinglePublishedTarget(channels, p) == NoSingle(reason) <==> NoSingleBecause(channels, p, reason)
  {
    forall c: nat ensures IsOutOn(channels, p, c) <==> SinglePublishedTarget(channels, p).Single? && SinglePublishedTarget(channels, p).place == c {
      OutVerdict(channels, p, c);
    }
    var found := SinglePublishedTarget(channels, p);
    assert found.Single? ==> IsOutOn(channels, p, found.place);
    if |p.deliveries| == 1 {
      assert forall c: nat :: Stands(p, c) <==> c == p.deliveries[0].channel;
    } else if p.deliveries == [] {
      assert forall c: nat :: Stands(p, c) <==> p.channel == Some(c);
    }
  }

  /** Why a channel does not take changes. */
  predicate ChannelRefuses(channels: map<nat, Channel>, c: nat, reason: Reply) {
    c in channels &&
    match reason
    case ChannelNotConnected => channels[c].status != Connected
    case RemoteError => channels[c].status == Connected && !channels[c].hasCredentials
    case Unsupported => channels[c].status == Connected && channels[c].hasCredentials && channels[c].provider !in {Facebook, Twitter, LinkedIn}
    case _ => false
  }

  lemma RefusesVerdict(channels: map<nat, Channel>, c: nat, reason: Reply)
    requires c in channels
    ensures ChangeRefused(channels[c]) == Some(reason) <==> ChannelRefuses(channels, c, reason)
  {
  }

  /** Why an edit was refused: the post, its text, its single remote post, the channel asked for, the channel
      it is on, and the remote are looked at in this order. */
  ghost predicate EditRefusedBecause(db: Db, p: Post, content: Option<string>, channel: Option<nat>, reason: Reply) {
    if p.status != Published then reason == NotPublished
    else if !(content.Some? && HasText(content.value)) then reason == ContentMissing
    else
      || NoSingleBecause(db.channels, p, reason)
      || exists c: nat :: IsOutOn(db.channels, p, c) &&
           if channel !in {None, Some(c)} then reason == WrongChannel
           else ChannelRefuses(db.channels, c, reason) || (reason == RemoteError && Changeable(db.channels, c))
  }

  lemma EditRefusals(db: Db, id: nat, title: Option<string>, content: Option<string>, channel: Option<nat>, at: Option<Time>, remote: Editor)
    requires Lookup(db, id).Some?
    ensures var out := ApplyUpdatePublished(db, id, title, content, channel, at, remote);
            out.reply != Done ==> out.db == db && EditRefusedBecause(db, Lookup(db, id).value, content, channel, out.reply)
  {
    var p := Lookup(db, id).value;
    StripsToNothing(Or(content, ""));
    match SinglePublishedTarget(db.channels, p)
    case NoSingle(reason) => NoSingleVerdict(db.channels, p, reason);
    case Single(c, remoteId) =>
      OutVerdict(db.channels, p, c);
      ChangeableVerdict(db.channels, c);
      if ChangeRefused(db.channels[c]).Some? {
        RefusesVerdict(db.channels, c, ChangeRefused(db.channels[c]).value);
      }
  }

  ghost predicate DeletionRefusedBecause(db: Db, p: Post, reason: Reply) {
    if p.status != Published then reason == NotPublished
    else
      || NoSingleBecause(db.channels, p, reason)
      || exists c: nat :: IsOutOn(db.channels, p, c) &&
           (ChannelRefuses(db.channels, c, reason) || (reason == RemoteError && Changeable(db.channels, c)))
  }

  lemma DeletionRefusals(db: Db, id: nat, remote: string -> bool)
    requires Lookup(db, id).Some?
    ensures var out := ApplyDeletePublished(db, id, remote);
            out.reply != Done ==> out.db == db && DeletionRefusedBecause(db, Lookup(db, id).value, out.reply)
  {
    var p := Lookup(db, id).value;
    match SinglePublishedTarget(db.channels, p)
    case NoSingle(reason) => NoSingleVerdict(db.channels, p, reason);
    case Single(c, remoteId) =>
      OutVerdict(db.channels, p, c);
      ChangeableVerdict(db.channels, c);
      if ChangeRefused(db.channels[c]).Some? {
        RefusesVerdict(db.channels, c, ChangeRefused(db.channels[c]).value);
      }
  }
}
