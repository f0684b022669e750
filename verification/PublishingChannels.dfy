/** What choosing channels does to a post (app/services/post_service.py). */
module PublishingChannels {
  import opened Common
  import opened Text
  import opened Publishing

  ghost predicate Distinct<T(!new)>(ts: seq<T>) {
    forall i, j | 0 <= i < j < |ts| :: ts[i] != ts[j]
  }

  ghost predicate DistinctChannels(ds: seq<Delivery>) {
    forall i, j | 0 <= i < j < |ds| :: ds[i].channel != ds[j].channel
  }

  lemma {:induction false} DedupeKeepsMembers(channels: seq<nat>)
    ensures forall c :: c in Dedupe(channels) <==> c in channels
    ensures Distinct(Dedupe(channels))
  {
    if channels != [] {
      DedupeKeepsMembers(channels[..|channels| - 1]);
      assert forall c :: c in channels <==> c in channels[..|channels| - 1] || c == channels[|channels| - 1];
    }
  }

  // ---- What stays --------------------------------------------------------------------------------

  /** Delivery `i` stays as `d`: the one that stands for its channel if the channel is selected, refitted,
      and any other on the same channel as it is. */
  predicate StaysAs(p: Post, selected: seq<nat>, overrides: map<nat, string>, i: nat, d: Delivery)
    requires i < |p.deliveries|
  {
    if Represents(p.deliveries, i) then p.deliveries[i].channel in selected && d == Refit(p, p.deliveries[i], overrides)
    else d == p.deliveries[i]
  }

  ghost predicate IsLeft(p: Post, selected: seq<nat>, overrides: map<nat, string>, n: nat, d: Delivery)
    requires n <= |p.deliveries|
  {
    exists i: nat :: i < n && StaysAs(p, selected, overrides, i, d)
  }

  lemma {:induction false} KeptAreLeft(p: Post, selected: seq<nat>, overrides: map<nat, string>, n: nat)
    requires n <= |p.deliveries|
    ensures forall d :: d in KeptDeliveries(p, selected, overrides, n) <==> IsLeft(p, selected, overrides, n, d)
  {
    if n > 0 {
      KeptAreLeft(p, selected, overrides, n - 1);
      forall d ensures d in KeptDeliveries(p, selected, overrides, n) <==> IsLeft(p, selected, overrides, n, d) {
        assert IsLeft(p, selected, overrides, n, d) <==> IsLeft(p, selected, overrides, n - 1, d) || StaysAs(p, selected, overrides, n - 1, d);
      }
    }
  }

  lemma {:induction false} KeptAreDistinct(p: Post, selected: seq<nat>, overrides: map<nat, string>, n: nat)
    requires n <= |p.deliveries| && DistinctChannels(p.deliveries)
    ensures DistinctChannels(KeptDeliveries(p, selected, overrides, n))
  {
    if n > 0 {
      var before, kept := KeptDeliveries(p, selected, overrides, n - 1), KeptDeliveries(p, selected, overrides, n);
      KeptAreDistinct(p, selected, overrides, n - 1);
      KeptAreLeft(p, selected, overrides, n - 1);
      forall x | x in before ensures x.channel != p.deliveries[n - 1].channel {
        var i: nat :| i < n - 1 && StaysAs(p, selected, overrides, i, x);
      }
      AppendedChannel(before, kept, p.deliveries[n - 1].channel);
    }
  }

  lemma AppendedChannel(before: seq<Delivery>, kept: seq<Delivery>, c: nat)
    requires DistinctChannels(before) && forall x | x in before :: x.channel != c
    requires kept == before || (|kept| == |before| + 1 && kept[..|before|] == before && kept[|before|].channel == c)
    ensures DistinctChannels(kept)
  {
    forall i, j | 0 <= i < j < |kept| ensures kept[i].channel != kept[j].channel {
      assert kept[i] == before[i] && before[i] in before;
    }
  }

  /** A channel has a delivery that another one on it stands for. */
  predicate Shadowed(ds: seq<Delivery>, c: nat) {
    exists i: nat :: i < |ds| && ds[i].channel == c && !Represents(ds, i)
  }

  lemma KeptChannels(p: Post, selected: seq<nat>, overrides: map<nat, string>)
    ensures forall c :: HasChannel(KeptDeliveries(p, selected, overrides, |p.deliveries|), c) <==>
              (c in selected && HasChannel(p.deliveries, c)) || Shadowed(p.deliveries, c)
  {
    var kept := KeptDeliveries(p, selected, overrides, |p.deliveries|);
    KeptAreLeft(p, selected, overrides, |p.deliveries|);
    forall c ensures HasChannel(kept, c) <==> (c in selected && HasChannel(p.deliveries, c)) || Shadowed(p.deliveries, c) {
      if a :| 0 <= a < |kept| && kept[a].channel == c {
        assert kept[a] in kept;
        var i: nat :| i < |p.deliveries| && StaysAs(p, selected, overrides, i, kept[a]);
        assert p.deliveries[i].channel == c;
      }
      if i: nat :| i < |p.deliveries| && p.deliveries[i].channel == c && (c in selected || !Represents(p.deliveries, i)) {
        LeftIsKept(p, selected, overrides, i);
      }
    }
  }

  lemma LeftIsKept(p: Post, selected: seq<nat>, overrides: map<nat, string>, i: nat)
    requires i < |p.deliveries| && (p.deliveries[i].channel in selected || !Represents(p.deliveries, i))
    ensures HasChannel(KeptDeliveries(p, selected, overrides, |p.deliveries|), p.deliveries[i].channel)
  {
    var d := if Represents(p.deliveries, i) then Refit(p, p.deliveries[i], overrides) else p.deliveries[i];
    KeptAreLeft(p, selected, overrides, |p.deliveries|);
    assert StaysAs(p, selected, overrides, i, d);
    assert d in KeptDeliveries(p, selected, overrides, |p.deliveries|);
  }

  // ---- What is added -----------------------------------------------------------------------------

  lemma {:induction false} AddedAreMissing(db: Db, p: Post, selected: seq<nat>, content: Option<string>, overrides: map<nat, string>)
    requires Distinct(selected)
    ensures var added := AddedDeliveries(db, p, selected, content, overrides);
            && DistinctChannels(added)
            && forall c :: HasChannel(added, c) <==> c in selected && c in db.channels && !HasChannel(p.deliveries, c)
  {
    if selected != [] {
      var n := |selected| - 1;
      var before, added := AddedDeliveries(db, p, selected[..n], content, overrides), AddedDeliveries(db, p, selected, content, overrides);
      AddedAreMissing(db, p, selected[..n], content, overrides);
      assert forall c :: c in selected <==> c in selected[..n] || c == selected[n];
      assert selected[n] !in selected[..n];
      if |added| > |before| {
        var d := added[|before|];
        assert added == before + [d] && d.channel == selected[n];
        assert !HasChannel(before, d.channel);
        forall c ensures HasChannel(added, c) <==> HasChannel(before, c) || c == d.channel {
          if i :| 0 <= i < |before| && before[i].channel == c {
            assert added[i].channel == c;
          }
          assert added[|before|].channel == d.channel;
        }
      }
    }
  }

  /** The deliveries hold a fresh one for the channel: with the override given for it or else the
      content, waiting as the post is, and not sent. */
  ghost predicate HasFresh(db: Db, p: Post, c: nat, content: Option<string>, overrides: map<nat, string>, ds: seq<Delivery>) {
    exists d :: d in ds && d.channel == c && d.id >= db.nextDelivery && IsFresh(p, d, content, overrides)
  }

  predicate IsFresh(p: Post, d: Delivery, content: Option<string>, overrides: map<nat, string>) {
    && d.contentOverride == (if Override(overrides, d.channel).Some? then Override(overrides, d.channel) else content)
    && d.status == (if p.status.Planned? then DeliveryPlanned else DeliveryDraft)
    && d.externalId.None? && d.publishedAt.None? && d.error.None?
  }

  lemma {:induction false} AddedAreFresh(db: Db, p: Post, selected: seq<nat>, content: Option<string>, overrides: map<nat, string>)
    ensures forall d | d in AddedDeliveries(db, p, selected, content, overrides) :: d.id >= db.nextDelivery && IsFresh(p, d, content, overrides)
  {
    if selected != [] {
      AddedAreFresh(db, p, selected[..|selected| - 1], content, overrides);
    }
  }

  lemma MissingGetFresh(db: Db, p: Post, selected: seq<nat>, content: Option<string>, overrides: map<nat, string>, kept: seq<Delivery>, c: nat)
    requires Distinct(selected) && c in selected && c in db.channels && !HasChannel(p.deliveries, c)
    ensures HasFresh(db, p, c, content, overrides, kept + AddedDeliveries(db, p, selected, content, overrides))
  {
    var added := AddedDeliveries(db, p, selected, content, overrides);
    AddedAreMissing(db, p, selected, content, overrides);
    AddedAreFresh(db, p, selected, content, overrides);
    var a :| 0 <= a < |added| && added[a].channel == c;
    assert added[a] in kept + added;
  }

  lemma JoinedHasChannel(kept: seq<Delivery>, added: seq<Delivery>)
    ensures forall c :: HasChannel(kept + added, c) <==> HasChannel(kept, c) || HasChannel(added, c)
  {
    var ds := kept + added;
    forall c ensures HasChannel(ds, c) <==> HasChannel(kept, c) || HasChannel(added, c) {
      if i :| 0 <= i < |kept| && kept[i].channel == c {
        assert ds[i].channel == c;
      }
      if i :| 0 <= i < |added| && added[i].channel == c {
        assert ds[|kept| + i].channel == c;
      }
    }
  }

  lemma JoinedAreDistinct(kept: seq<Delivery>, added: seq<Delivery>)
    requires DistinctChannels(kept) && DistinctChannels(added)
    requires forall c :: !(HasChannel(kept, c) && HasChannel(added, c))
    ensures DistinctChannels(kept + added)
  {
    var ds := kept + added;
    forall i, j | 0 <= i < j < |ds| ensures ds[i].channel != ds[j].channel {
      if i < |kept| <= j {
        assert HasChannel(kept, ds[i].channel) && HasChannel(added, added[j - |kept|].channel);
      }
    }
  }

  // ---- The whole choice ----------------------------------------------------------------------------

  /** A post with one delivery per channel is left with one delivery per channel. */
  lemma ReplacedAreDistinct(db: Db, p: Post, channels: seq<nat>, content: Option<string>, overrides: map<nat, string>)
    requires DistinctChannels(p.deliveries)
    ensures var selected := Dedupe(channels);
            DistinctChannels(KeptDeliveries(p, selected, overrides, |p.deliveries|) + AddedDeliveries(db, p, selected, content, overrides))
  {
    var selected := Dedupe(channels);
    DedupeKeepsMembers(channels);
    KeptAreDistinct(p, selected, overrides, |p.deliveries|);
    AddedAreMissing(db, p, selected, content, overrides);
    KeptChannels(p, selected, overrides);
    JoinedAreDistinct(KeptDeliveries(p, selected, overrides, |p.deliveries|), AddedDeliveries(db, p, selected, content, overrides));
  }

  /** Of a post with one delivery per channel every delivery stands for its channel. */
  lemma NothingShadowed(ds: seq<Delivery>)
    requires DistinctChannels(ds)
    ensures forall c :: !Shadowed(ds, c)
    ensures forall i: nat | i < |ds| :: Represents(ds, i)
  {
  }

  lemma ReplacedChannels(db: Db, p: Post, channels: seq<nat>, content: Option<string>, overrides: map<nat, string>)
    ensures var selected := Dedupe(channels);
            var ds := KeptDeliveries(p, selected, overrides, |p.deliveries|) + AddedDeliveries(db, p, selected, content, overrides);
            forall c :: HasChannel(ds, c) <==>
              (c in channels && (HasChannel(p.deliveries, c) || c in db.channels)) || Shadowed(p.deliveries, c)
  {
    var selected := Dedupe(channels);
    DedupeKeepsMembers(channels);
    KeptChannels(p, selected, overrides);
    AddedAreMissing(db, p, selected, content, overrides);
    JoinedHasChannel(KeptDeliveries(p, selected, overrides, |p.deliveries|), AddedDeliveries(db, p, selected, content, overrides));
  }

  /** After choosing channels a post has a delivery on exactly the selected channels that had one or exist
      (and on channels where one delivery shadows another); the delivery that stands for a selected channel
      is brought up to date, what was published staying published with its id; one that another stands for
      is left as it was; a channel that had none gets a fresh one. */
  lemma ReplaceVerdict(db: Db, id: nat, channels: seq<nat>, content: Option<string>, overrides: map<nat, string>)
    requires Lookup(db, id).Some?
    ensures var p := Lookup(db, id).value;
            var p' := Lookup(ApplyReplace(db, id, channels, content, overrides).db, id).value;
            && p' == p.(deliveries := p'.deliveries)
            && (DistinctChannels(p.deliveries) ==> DistinctChannels(p'.deliveries))
            && (forall c :: HasChannel(p'.deliveries, c) <==>
                  (c in channels && (HasChannel(p.deliveries, c) || c in db.channels)) || Shadowed(p.deliveries, c))
            && (forall i: nat | i < |p.deliveries| && Represents(p.deliveries, i) && p.deliveries[i].channel in channels ::
                  BroughtUpToDate(p, p.deliveries[i], overrides) in p'.deliveries)
            && (forall i: nat | i < |p.deliveries| && !Represents(p.deliveries, i) :: p.deliveries[i] in p'.deliveries)
            && (forall c | c in channels && c in db.channels && !HasChannel(p.deliveries, c) ::
                  HasFresh(db, p, c, content, overrides, p'.deliveries))
  {
    var p := Lookup(db, id).value;
    var p' := Lookup(ApplyReplace(db, id, channels, content, overrides).db, id).value;
    var selected := Dedupe(channels);
    var kept := KeptDeliveries(p, selected, overrides, |p.deliveries|);
    DedupeKeepsMembers(channels);
    ReplacedChannels(db, p, channels, content, overrides);
    if DistinctChannels(p.deliveries) {
      ReplacedAreDistinct(db, p, channels, content, overrides);
    }
    forall c | c in channels && c in db.channels && !HasChannel(p.deliveries, c)
      ensures HasFresh(db, p, c, content, overrides, p'.deliveries)
    {
      MissingGetFresh(db, p, selected, content, overrides, kept, c);
    }
    KeptHolds(p, selected, overrides);
  }

  function BroughtUpToDate(p: Post, d: Delivery, overrides: map<nat, string>): Delivery {
    d.(contentOverride := Override(overrides, d.channel),
    status := if d.status.DeliveryPublished? then DeliveryPublished else if p.status.Planned? then DeliveryPlanned else DeliveryDraft)
  }

  lemma KeptHolds(p: Post, selected: seq<nat>, overrides: map<nat, string>)
    ensures var kept := KeptDeliveries(p, selected, overrides, |p.deliveries|);
            && (forall i: nat | i < |p.deliveries| && Represents(p.deliveries, i) && p.deliveries[i].channel in selected ::
                  BroughtUpToDate(p, p.deliveries[i], overrides) in kept)
            && (forall i: nat | i < |p.deliveries| && !Represents(p.deliveries, i) :: p.deliveries[i] in kept)
  {
    KeptAreLeft(p, selected, overrides, |p.deliveries|);
    forall i: nat | i < |p.deliveries| && Represents(p.deliveries, i) && p.deliveries[i].channel in selected
      ensures BroughtUpToDate(p, p.deliveries[i], overrides) in KeptDeliveries(p, selected, overrides, |p.deliveries|)
    {
      assert StaysAs(p, selected, overrides, i, BroughtUpToDate(p, p.deliveries[i], overrides));
    }
    forall i: nat | i < |p.deliveries| && !Represents(p.deliveries, i)
      ensures p.deliveries[i] in KeptDeliveries(p, selected, overrides, |p.deliveries|)
    {
      assert StaysAs(p, selected, overrides, i, p.deliveries[i]);
    }
  }

  /** The text given for a channel counts, without the blanks at its ends, unless it is blank. */
  lemma OverrideVerdict(overrides: map<nat, string>, channel: nat, t: string)
    ensures Override(overrides, channel) == Some(t) <==> channel in overrides && HasText(overrides[channel]) && t == Strip(overrides[channel])
  {
    StripsToNothing(if channel in overrides then overrides[channel] else "");
  }
}
