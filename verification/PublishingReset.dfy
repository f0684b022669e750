/** Taking the published status back: exactly when it is harmless.  The calendar's CSV import updates a
    post and then chooses its channels (app/web/calendar.py), so the posts concerned have deliveries. */
module PublishingReset {
  import opened Common
  import opened Text
  import opened Publishing
  import opened PublishingChannels
  import opened PublishingSafety

  /** No continuation sends anything twice. */
  ghost predicate NeverSendsTwice(db: Db) {
    forall rs | AllowedRun(db, rs) :: Distinct(Run(db, rs).sent)
  }

  ghost predicate Resets(db: Db, e: Request) {
    && e.Edit? && Lookup(db, e.id).Some?
    && Lookup(db, e.id).value.status.Published? && !e.status.Published?
  }

  // ---- A run that sends a target again -------------------------------------------------------------

  const PAGE := Channel(Facebook, Connected, true)

  /** The post is rewritten to be publishable, its channels are chosen, and every remote accepts. */
  function Again(id: nat, c: nat, selection: seq<nat>): seq<Request> {
    [Reconnect(map[c := PAGE]), Edit(id, "t", Some("x"), Some(c), Draft, None), Replace(id, selection, None, map[]),
     Publish(id, (t: Target) => Accepted("r"), 0)]
  }

  lemma FourSteps(db: Db, rs: seq<Request>)
    requires |rs| == 4
    ensures Run(db, rs[..0]) == db && Run(db, rs[..1]) == Apply(db, rs[0])
    ensures Run(db, rs[..2]) == Apply(Apply(db, rs[0]), rs[1])
    ensures Run(db, rs[..3]) == Apply(Apply(Apply(db, rs[0]), rs[1]), rs[2])
    ensures Run(db, rs) == Apply(Run(db, rs[..3]), rs[3])
  {
    assert rs[..1][..0] == rs[..0] && rs[..2][..1] == rs[..1] && rs[..3][..2] == rs[..2];
  }

  function Rewritten(p: Post, c: nat, ds: seq<Delivery>): Post {
    p.(title := "t", content := Some("x"), channel := Some(c), status := Draft, scheduledAt := None, deliveries := ds)
  }

  /** The state after the first two requests. */
  function Prepared(db: Db, id: nat, p: Post, c: nat): Db {
    WithPost(db.(channels := map[c := PAGE]), id, Rewritten(p, c, p.deliveries))
  }

  lemma TwoPrepare(db: Db, id: nat, c: nat, selection: seq<nat>)
    requires Lookup(db, id).Some?
    ensures var rs := Again(id, c, selection);
            Apply(Apply(db, rs[0]), rs[1]) == Prepared(db, id, Lookup(db, id).value, c)
  {
  }

  lemma EditIsAllowed(db: Db, id: nat, c: nat, selection: seq<nat>)
    requires Lookup(db, id).Some? && !Lookup(db, id).value.status.Published?
    ensures Allowed(Apply(db, Again(id, c, selection)[0]), Again(id, c, selection)[1])
  {
  }

  /** From a post that is not published the run takes no status back. */
  lemma AgainIsAllowed(db: Db, id: nat, c: nat, selection: seq<nat>)
    requires Lookup(db, id).Some? && !Lookup(db, id).value.status.Published?
    ensures AllowedRun(db, Again(id, c, selection))
  {
    var rs := Again(id, c, selection);
    FourSteps(db, rs);
    EditIsAllowed(db, id, c, selection);
    forall k | 0 <= k < |rs| ensures Allowed(Run(db, rs[..k]), rs[k]) {
      assert k == 1 || !rs[k].Edit?;
    }
  }

  lemma ThenReplaced(db: Db, id: nat, p: Post, c: nat, selection: seq<nat>)
    requires id < |db.posts|
    ensures var edited := Rewritten(p, c, p.deliveries);
            var mid := ApplyReplace(Prepared(db, id, p, c), id, selection, None, map[]).db;
            && mid.sent == db.sent && mid.channels == map[c := PAGE] && Lookup(mid, id).Some?
            && Lookup(mid, id).value == edited.(deliveries :=
                 KeptDeliveries(edited, Dedupe(selection), map[], |p.deliveries|)
                 + AddedDeliveries(Prepared(db, id, p, c), edited, Dedupe(selection), None, map[]))
  {
  }

  lemma BeforePublish(db: Db, id: nat, c: nat, selection: seq<nat>)
    requires Lookup(db, id).Some?
    ensures Run(db, Again(id, c, selection)[..3]) == ApplyReplace(Prepared(db, id, Lookup(db, id).value, c), id, selection, None, map[]).db
  {
    FourSteps(db, Again(id, c, selection));
    TwoPrepare(db, id, c, selection);
  }

  /** A post on the page, with text and at most one delivery, is sent. */
  lemma IsSent(db: Db, id: nat, c: nat, p: Post, d: Delivery)
    requires Lookup(db, id) == Some(p) && !p.status.Published? && p.content == Some("x")
    requires c in db.channels && db.channels[c] == PAGE
    requires p.deliveries == [d] || (p.deliveries == [] && p.channel == Some(c) && d == DirectDelivery(p, c))
    requires d.channel == c && (d.contentOverride.None? || d.contentOverride == Some("x"))
    ensures ApplyPublish(db, id, (t: Target) => Accepted("r"), 0).db.sent == db.sent + [TargetOf(id, p, d)]
  {
    var remote := (t: Target) => Accepted("r");
    var ds := Targets(db.channels, p);
    assert ds == [d];
    TextIsThere();
    ReadyMeansChannelsExist(db.channels, p);
    assert ds[..0] == [];
    assert SentTargets(db.channels, id, p, ds, remote) == SentTargets(db.channels, id, p, ds[..0], remote) + [TargetOf(id, p, d)];
  }

  lemma TextIsThere()
    ensures Strip("x") == "x"
  {
    StripBothTrims("x", IsSpace);
  }

  lemma SentAgain(sent: seq<Target>, t: Target)
    requires t in sent
    ensures !Distinct(sent + [t])
  {
    var i :| 0 <= i < |sent| && sent[i] == t;
    assert (sent + [t])[i] == (sent + [t])[|sent|];
  }

  // ---- Straight to the channel ---------------------------------------------------------------------

  /** Choosing no channel at all removes every delivery. */
  lemma {:induction false} NoneIsKept(p: Post, overrides: map<nat, string>, n: nat)
    requires n <= |p.deliveries| && DistinctChannels(p.deliveries)
    ensures KeptDeliveries(p, [], overrides, n) == []
  {
    if n > 0 {
      NothingShadowed(p.deliveries);
      NoneIsKept(p, overrides, n - 1);
    }
  }

  lemma DirectAgain(db: Db, id: nat)
    requires Lookup(db, id).Some? && !Lookup(db, id).value.status.Published?
    requires DistinctChannels(Lookup(db, id).value.deliveries) && Direct(id) in db.sent
    ensures !Distinct(Run(db, Again(id, 0, [])).sent)
  {
    var p := Lookup(db, id).value;
    var mid := Run(db, Again(id, 0, [])[..3]);
    BeforePublish(db, id, 0, []);
    ThenReplaced(db, id, p, 0, []);
    NoneIsKept(Rewritten(p, 0, p.deliveries), map[], |p.deliveries|);
    FourSteps(db, Again(id, 0, []));
    IsSent(mid, id, 0, Lookup(mid, id).value, DirectDelivery(Lookup(mid, id).value, 0));
    SentAgain(db.sent, Direct(id));
  }

  // ---- A stored delivery ---------------------------------------------------------------------------

  /** Choosing one channel keeps the delivery on it and no other. */
  lemma {:induction false} OneIsKept(p: Post, a: nat, n: nat)
    requires n <= |p.deliveries| && a < |p.deliveries| && DistinctChannels(p.deliveries)
    ensures KeptDeliveries(p, [p.deliveries[a].channel], map[], n) == (if a < n then [Refit(p, p.deliveries[a], map[])] else [])
  {
    if n > 0 {
      NothingShadowed(p.deliveries);
      OneIsKept(p, a, n - 1);
    }
  }

  lemma NothingAdded(db: Db, p: Post, c: nat)
    requires HasChannel(p.deliveries, c)
    ensures AddedDeliveries(db, p, [c], None, map[]) == []
  {
    assert [c][..0] == [];
  }

  lemma DedupeOne(c: nat)
    ensures Dedupe([c]) == [c]
  {
    assert [c][..0] == [];
  }

  lemma StoredAgain(db: Db, id: nat, a: nat)
    requires Lookup(db, id).Some? && !Lookup(db, id).value.status.Published?
    requires DistinctChannels(Lookup(db, id).value.deliveries)
    requires a < |Lookup(db, id).value.deliveries| && Stored(Lookup(db, id).value.deliveries[a].id) in db.sent
    ensures !Distinct(Run(db, Again(id, Lookup(db, id).value.deliveries[a].channel, [Lookup(db, id).value.deliveries[a].channel])).sent)
  {
    var p := Lookup(db, id).value;
    var d := p.deliveries[a];
    var c := d.channel;
    var rs := Again(id, c, [c]);
    var mid, edited := Run(db, rs[..3]), Rewritten(p, c, p.deliveries);
    BeforePublish(db, id, c, [c]);
    ThenReplaced(db, id, p, c, [c]);
    DedupeOne(c);
    OneIsKept(edited, a, |p.deliveries|);
    NothingAdded(Prepared(db, id, p, c), edited, c);
    FourSteps(db, rs);
    assert Override(map[], c) == None by {
      StripBothTrims("", IsSpace);
    }
    IsSent(mid, id, c, Lookup(mid, id).value, Refit(edited, d, map[]));
    SentAgain(db.sent, Stored(d.id));
  }

  // ---- The exact condition -------------------------------------------------------------------------

  /** A reset of a post of which something was sent can send it a second time. */
  lemma ResetCanSendAgain(db: Db, e: Request)
    requires Inv(db) && Resets(db, e) && !Unsent(db, e.id, Lookup(db, e.id).value)
    ensures !NeverSendsTwice(Apply(db, e))
  {
    var id, p := e.id, Lookup(db, e.id).value;
    var reset := Apply(db, e);
    assert PostOk(db, id);
    if Direct(id) in db.sent {
      DirectAgain(reset, id);
      AgainIsAllowed(reset, id, 0, []);
    } else {
      var a: nat :| a < |p.deliveries| && Stored(p.deliveries[a].id) in db.sent;
      var c := p.deliveries[a].channel;
      StoredAgain(reset, id, a);
      AgainIsAllowed(reset, id, c, [c]);
    }
  }

  /** Taking a published post's status back is harmless, in every continuation, if and only if nothing of
      the post was sent: it was not sent straight to its channel, and no delivery it has is published. */
  lemma ResetIsHarmlessExactlyWhenUnsent(db: Db, e: Request)
    requires Inv(db) && Resets(db, e)
    ensures var p := Lookup(db, e.id).value;
            NeverSendsTwice(Apply(db, e)) <==>
            Direct(e.id) !in db.sent && forall a | 0 <= a < |p.deliveries| :: !p.deliveries[a].status.DeliveryPublished?
  {
    var p := Lookup(db, e.id).value;
    assert PostOk(db, e.id);
    if Unsent(db, e.id, p) {
      StepKeepsInv(db, e);
      forall rs | AllowedRun(Apply(db, e), rs) ensures Distinct(Run(Apply(db, e), rs).sent) {
        RunKeepsInv(Apply(db, e), rs);
      }
    } else {
      ResetCanSendAgain(db, e);
    }
  }

  /** So in every reachable state: the rule `Allowed` imposes on resets is the weakest there is. */
  lemma ReachableReset(channels: map<nat, Channel>, rs: seq<Request>, e: Request)
    requires AllowedRun(Db([], channels, 0, []), rs) && Resets(Run(Db([], channels, 0, []), rs), e)
    ensures var db := Run(Db([], channels, 0, []), rs);
            Allowed(db, e) <==> NeverSendsTwice(Apply(db, e))
  {
    var db := Run(Db([], channels, 0, []), rs);
    SentAtMostOnce(channels, rs, e.id);
    ResetIsHarmlessExactlyWhenUnsent(db, e);
    assert PostOk(db, e.id);
  }
}
