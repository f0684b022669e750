/** Posts, changed in place by publishing and by choosing channels. */
module PublishingService {
  import opened Common
  import opened Text
  import opened Publishing
  import opened PublishingChannels
  import opened PublishingSafety
  import opened PublishingDue

  // ---- Steps of the loops ------------------------------------------------------------------------

  lemma IssuesOneMore(channels: map<nat, Channel>, p: Post, ds: seq<Delivery>, n: nat)
    requires n < |ds|
    ensures IssuesOf(channels, p, ds[..n + 1]) == IssuesOf(channels, p, ds[..n])
      + (match IssueOf(channels, p, ds[n]) case Some(issue) => [issue] case None => [])
  {
    assert ds[..n + 1][..n] == ds[..n];
  }

  lemma SentOneMore(channels: map<nat, Channel>, id: nat, p: Post, ds: seq<Delivery>, remote: Remote, n: nat)
    requires n < |ds|
    ensures SentTargets(channels, id, p, ds[..n + 1], remote) == SentTargets(channels, id, p, ds[..n], remote)
      + (if Sends(channels, id, p, ds[n], remote) then [TargetOf(id, p, ds[n])] else [])
  {
    assert ds[..n + 1][..n] == ds[..n];
  }

  lemma PrimaryOneMore(channels: map<nat, Channel>, id: nat, p: Post, ds: seq<Delivery>, remote: Remote, n: nat)
    requires n < |ds|
    ensures PrimaryId(channels, id, p, ds[..n + 1], remote) ==
            if PrimaryId(channels, id, p, ds[..n], remote).Some? then PrimaryId(channels, id, p, ds[..n], remote)
            else if Sends(channels, id, p, ds[n], remote) then Some(Send(channels[ds[n].channel], TargetOf(id, p, ds[n]), remote).externalId)
            else None
  {
    var before, after := First(ds[..n], d => Sends(channels, id, p, d, remote)), First(ds[..n + 1], d => Sends(channels, id, p, d, remote));
    assert forall i | 0 <= i < n :: ds[..n][i] == ds[..n + 1][i] == ds[i];
    assert ds[..n + 1][n] == ds[n];
    if before.Some? && after.Some? {
      assert after.value == before.value;
    }
  }

  /** What is left of rows some of which were deleted. */
  function Compact(rows: seq<Option<Delivery>>): seq<Delivery> {
    if rows == [] then []
    else
      var last := rows[|rows| - 1];
      Compact(rows[..|rows| - 1]) + (if last.Some? then [last.value] else [])
  }

  function RowAfter(p: Post, selected: seq<nat>, overrides: map<nat, string>, i: nat): Option<Delivery>
    requires i < |p.deliveries|
  {
    var d := p.deliveries[i];
    if !Represents(p.deliveries, i) then Some(d)
    else if d.channel in selected then Some(Refit(p, d, overrides))
    else None
  }

  lemma {:induction false} CompactIsKept(p: Post, selected: seq<nat>, overrides: map<nat, string>, rows: seq<Option<Delivery>>, n: nat)
    requires |rows| == n <= |p.deliveries|
    requires forall i | 0 <= i < n :: rows[i] == RowAfter(p, selected, overrides, i)
    ensures Compact(rows) == KeptDeliveries(p, selected, overrides, n)
  {
    if n > 0 {
      CompactIsKept(p, selected, overrides, rows[..n - 1], n - 1);
    }
  }

  class Service {
    var posts: seq<Option<Post>>
    var channels: map<nat, Channel>
    var nextDelivery: nat
    ghost var sent: seq<Target>

    ghost function State(): Db
      reads this
    {
      Db(posts, channels, nextDelivery, sent)
    }

    method PublishabilityIssuesOf(p: Post) returns (issues: seq<Issue>)
      ensures issues == PublishabilityIssues(channels, p)
    {
      var targets := Targets(channels, p);
      if targets == [] {
        return [NoChannel];
      }
      issues := [];
      for i := 0 to |targets|
        invariant issues == IssuesOf(channels, p, targets[..i])
      {
        IssuesOneMore(channels, p, targets, i);
        var issue := IssueOf(channels, p, targets[i]);
        if issue.Some? {
          issues := issues + [issue.value];
        }
      }
      assert targets[..|targets|] == targets;
    }

    method Publish(id: nat, remote: Remote, now: Time) returns (r: Reply)
      modifies this
      ensures Outcome(State(), r) == ApplyPublish(old(State()), id, remote, now)
    {
      if id >= |posts| || posts[id].None? {
        return PostNotFound;
      }
      var p := posts[id].value;
      if p.status.Published? {
        return AlreadyPublished;
      }
      var issues := PublishabilityIssuesOf(p);
      if issues != [] {
        return NotReady(issues);
      }
      var ds := Targets(channels, p);
      var delivered, primary, publishedCount;
      ghost var accepted;
      delivered, primary, publishedCount, accepted := SendAll(id, p, ds, remote, now);
      p := p.(deliveries := if p.deliveries == [] then [] else delivered);
      if publishedCount == 0 {
        posts := posts[id := Some(p)];
        return AllFailed;
      }
      p := p.(status := Published);
      p := p.(externalId := primary);
      p := p.(publishedAt := Some(now));
      posts := posts[id := Some(p)];
      sent := sent + accepted;
      r := Done;
    }

    /** The sending loop: every delivery is tried, whatever became of the others. */
    method SendAll(id: nat, p: Post, ds: seq<Delivery>, remote: Remote, now: Time)
      returns (delivered: seq<Delivery>, primary: Option<string>, publishedCount: nat, ghost accepted: seq<Target>)
      ensures delivered == DeliverAll(channels, id, p, ds, remote, now)
      ensures primary == PrimaryId(channels, id, p, ds, remote)
      ensures accepted == SentTargets(channels, id, p, ds, remote) && publishedCount == |accepted|
    {
      delivered, primary, publishedCount, accepted := [], None, 0, [];
      for i := 0 to |ds|
        invariant |delivered| == i
        invariant forall k | 0 <= k < i :: delivered[k] == Deliver(channels, id, p, ds[k], remote, now)
        invariant accepted == SentTargets(channels, id, p, ds[..i], remote)
        invariant publishedCount == |accepted|
        invariant primary == PrimaryId(channels, id, p, ds[..i], remote)
      {
        SentOneMore(channels, id, p, ds, remote, i);
        PrimaryOneMore(channels, id, p, ds, remote, i);
        var d := ds[i];
        if d.channel !in channels {
          d := d.(status := DeliveryFailed, error := Some("channel not found"));
        } else {
          var target := TargetOf(id, p, d);
          match Send(channels[d.channel], target, remote) {
            case Refused(message) =>
              d := d.(status := DeliveryFailed, error := Some(message), externalId := None, publishedAt := None);
            case Accepted(externalId) =>
              d := d.(status := DeliveryPublished, externalId := Some(externalId), publishedAt := Some(now), error := None);
              accepted := accepted + [target];
              publishedCount := publishedCount + 1;
              if primary.None? {
                primary := Some(externalId);
              }
          }
        }
        delivered := delivered + [d];
      }
      assert ds[..|ds|] == ds;
    }

    method PublishDuePosts(remote: Remote, now: Time) returns (published: seq<nat>)
      modifies this
      ensures Outcome(State(), PublishedIds(published)) == ApplyPublishDue(old(State()), remote, now)
    {
      var due := DuePosts(posts, now, |posts|);
      ghost var start := State();
      published := [];
      for i := 0 to |due|
        invariant Outcome(State(), PublishedIds(published)) == PublishEach(start, due[..i], remote, now)
      {
        assert due[..i + 1][..i] == due[..i];
        var r := Publish(due[i], remote, now);
        if r.Done? {
          published := published + [due[i]];
        }
      }
      assert due[..|due|] == due;
    }

    method UpdatePublishedPost(id: nat, title: Option<string>, content: Option<string>, channel: Option<nat>,
                               scheduledAt: Option<Time>, remote: Editor)
      returns (r: Reply)
      modifies this`posts
      ensures Outcome(State(), r) == ApplyUpdatePublished(old(State()), id, title, content, channel, scheduledAt, remote)
    {
      if id >= |posts| || posts[id].None? {
        return PostNotFound;
      }
      var p := posts[id].value;
      if !p.status.Published? {
        return NotPublished;
      }
      if Clean(content) == "" {
        return ContentMissing;
      }
      var target := SinglePublishedTarget(channels, p);
      if target.NoSingle? {
        return target.reason;
      }
      if channel.Some? && channel.value != target.place {
        return WrongChannel;
      }
      var refused := ChangeRefused(channels[target.place]);
      if refused.Some? {
        return refused.value;
      }
      var result := remote(target.remoteId);
      if result.None? {
        return RemoteError;
      }
      var newId := result.value;
      if title.Some? {
        p := p.(title := title.value);
      }
      p := p.(content := Some(Or(content, "")));
      p := p.(scheduledAt := scheduledAt);
      if |p.deliveries| == 1 {
        var d := p.deliveries[0].(contentOverride := Some(Or(content, "")));
        if Or(newId, "") != "" {
          d := d.(externalId := newId);
        }
        p := p.(deliveries := [d]);
      }
      if Or(newId, "") != "" {
        p := p.(externalId := newId);
      }
      posts := posts[id := Some(p)];
      r := Done;
    }

    method DeletePublishedPost(id: nat, remote: string -> bool) returns (r: Reply)
      modifies this`posts
      ensures Outcome(State(), r) == ApplyDeletePublished(old(State()), id, remote)
    {
      if id >= |posts| || posts[id].None? {
        return PostNotFound;
      }
      var p := posts[id].value;
      if !p.status.Published? {
        return NotPublished;
      }
      var target := SinglePublishedTarget(channels, p);
      if target.NoSingle? {
        return target.reason;
      }
      var refused := ChangeRefused(channels[target.place]);
      if refused.Some? {
        return refused.value;
      }
      if !remote(target.remoteId) {
        return RemoteError;
      }
      posts := posts[id := None];
      r := Done;
    }

    method Reschedule(id: nat, at: Time) returns (r: Reply)
      modifies this`posts
      ensures Outcome(State(), r) == ApplyReschedule(old(State()), id, at)
    {
      if id >= |posts| || posts[id].None? {
        return PostNotFound;
      }
      posts := posts[id := Some(posts[id].value.(scheduledAt := Some(at)))];
      r := Done;
    }

    /** Which delivery stands for each channel: later ones replace earlier ones. */
    method IndexByChannel(ds: seq<Delivery>) returns (existing: map<nat, nat>)
      ensures forall c :: c in existing <==> HasChannel(ds, c)
      ensures forall c | c in existing :: existing[c] < |ds| && ds[existing[c]].channel == c && Represents(ds, existing[c])
    {
      existing := map[];
      for i := 0 to |ds|
        invariant forall c | c in existing :: existing[c] < i && ds[existing[c]].channel == c
        invariant forall c, j | c in existing && existing[c] < j < i :: ds[j].channel != c
        invariant forall j | 0 <= j < i :: ds[j].channel in existing
      {
        existing := existing[ds[i].channel := i];
      }
    }

    method ReplaceDeliveries(id: nat, selection: seq<nat>, content: Option<string>, overrides: map<nat, string>) returns (r: Reply)
      modifies this
      ensures Outcome(State(), r) == ApplyReplace(old(State()), id, selection, content, overrides)
    {
      if id >= |posts| || posts[id].None? {
        return PostNotFound;
      }
      var p := posts[id].value;
      DedupeKeepsMembers(selection);
      var ds, added := SelectChannels(p, Dedupe(selection), content, overrides);
      posts := posts[id := Some(p.(deliveries := ds))];
      nextDelivery := nextDelivery + added;
      r := Done;
    }

    method SelectChannels(p: Post, selected: seq<nat>, content: Option<string>, overrides: map<nat, string>)
      returns (ds: seq<Delivery>, count: nat)
      requires Distinct(selected)
      ensures var added := AddedDeliveries(State(), p, selected, content, overrides);
              ds == KeptDeliveries(p, selected, overrides, |p.deliveries|) + added && count == |added|
    {
      var existing := IndexByChannel(p.deliveries);
      var rows := DropUnselected(p, selected, existing);
      var added: seq<Delivery> := [];
      for k := 0 to |selected|
        invariant RowsDuring(p, selected, overrides, k, rows)
        invariant added == AddedDeliveries(State(), p, selected[..k], content, overrides)
      {
        AddedOneMore(State(), p, selected, content, overrides, k);
        var channel := selected[k];
        if channel in existing {
          rows := RefitChannel(p, selected, k, overrides, existing[channel], rows);
        } else {
          NothingToRefit(p, selected, overrides, k, rows);
          if channel in channels {
            added := added + [NewDelivery(p, channel, content, overrides, nextDelivery + |added|)];
          }
        }
      }
      assert selected[..|selected|] == selected;
      CompactIsKept(p, selected, overrides, rows, |rows|);
      ds, count := Compact(rows) + added, |added|;
    }

    /** Brings the delivery that stands for a selected channel up to date. */
    method RefitChannel(p: Post, selected: seq<nat>, k: nat, overrides: map<nat, string>, i: nat, rows: seq<Option<Delivery>>)
      returns (rows': seq<Option<Delivery>>)
      requires k < |selected| && Distinct(selected) && RowsDuring(p, selected, overrides, k, rows)
      requires i < |p.deliveries| && Represents(p.deliveries, i) && p.deliveries[i].channel == selected[k]
      ensures RowsDuring(p, selected, overrides, k + 1, rows')
    {
      RowOneMore(p, selected, overrides, k);
      var d := p.deliveries[i].(contentOverride := Override(overrides, selected[k]));
      if !d.status.DeliveryPublished? {
        d := d.(status := InitialStatus(p));
      }
      rows' := rows[i := Some(d)];
    }

    method DropUnselected(p: Post, selected: seq<nat>, existing: map<nat, nat>) returns (rows: seq<Option<Delivery>>)
      requires forall c :: c in existing <==> HasChannel(p.deliveries, c)
      requires forall c | c in existing :: existing[c] < |p.deliveries| && p.deliveries[existing[c]].channel == c && Represents(p.deliveries, existing[c])
      ensures |rows| == |p.deliveries|
      ensures forall i | 0 <= i < |rows| :: rows[i] == (if Dropped(p, selected, i) then None else Some(p.deliveries[i]))
    {
      rows := seq(|p.deliveries|, i requires 0 <= i < |p.deliveries| => Some(p.deliveries[i]));
      for i := 0 to |p.deliveries|
        invariant |rows| == |p.deliveries|
        invariant forall k | 0 <= k < |rows| :: rows[k] == (if k < i && Dropped(p, selected, k) then None else Some(p.deliveries[k]))
      {
        var channel := p.deliveries[i].channel;
        assert HasChannel(p.deliveries, channel);
        assert existing[channel] == i <==> Represents(p.deliveries, i);
        if existing[channel] == i && channel !in selected {
          rows := rows[i := None];
        }
      }
    }
  }

  predicate Dropped(p: Post, selected: seq<nat>, i: nat)
    requires i < |p.deliveries|
  {
    Represents(p.deliveries, i) && p.deliveries[i].channel !in selected
  }

  /** Row `i` once the first `k` selected channels have been handled. */
  function RowDuring(p: Post, selected: seq<nat>, overrides: map<nat, string>, k: nat, i: nat): Option<Delivery>
    requires i < |p.deliveries| && k <= |selected|
  {
    var d := p.deliveries[i];
    if Dropped(p, selected, i) then None
    else if Represents(p.deliveries, i) && d.channel in selected[..k] then Some(Refit(p, d, overrides))
    else Some(d)
  }

  ghost predicate RowsDuring(p: Post, selected: seq<nat>, overrides: map<nat, string>, k: nat, rows: seq<Option<Delivery>>)
    requires k <= |selected|
  {
    |rows| == |p.deliveries| && forall i | 0 <= i < |rows| :: rows[i] == RowDuring(p, selected, overrides, k, i)
  }

  lemma NothingToRefit(p: Post, selected: seq<nat>, overrides: map<nat, string>, k: nat, rows: seq<Option<Delivery>>)
    requires k < |selected| && Distinct(selected) && RowsDuring(p, selected, overrides, k, rows)
    requires !HasChannel(p.deliveries, selected[k])
    ensures RowsDuring(p, selected, overrides, k + 1, rows)
  {
    RowOneMore(p, selected, overrides, k);
  }

  lemma AddedOneMore(db: Db, p: Post, selected: seq<nat>, content: Option<string>, overrides: map<nat, string>, k: nat)
    requires k < |selected|
    ensures var before := AddedDeliveries(db, p, selected[..k], content, overrides);
            AddedDeliveries(db, p, selected[..k + 1], content, overrides) ==
            if HasChannel(p.deliveries, selected[k]) || selected[k] !in db.channels then before
            else before + [NewDelivery(p, selected[k], content, overrides, db.nextDelivery + |before|)]
  {
    assert selected[..k + 1][..k] == selected[..k];
  }

  /** Handling one more channel refits the row that stands for it, if any, and no other. */
  lemma RowOneMore(p: Post, selected: seq<nat>, overrides: map<nat, string>, k: nat)
    requires k < |selected| && Distinct(selected)
    ensures forall i | 0 <= i < |p.deliveries| ::
              RowDuring(p, selected, overrides, k + 1, i) ==
              if Represents(p.deliveries, i) && p.deliveries[i].channel == selected[k] then Some(Refit(p, p.deliveries[i], overrides))
              else RowDuring(p, selected, overrides, k, i)
    ensures forall i, j | 0 <= i < |p.deliveries| && 0 <= j < |p.deliveries| && Represents(p.deliveries, i) && Represents(p.deliveries, j) ::
              p.deliveries[i].channel == p.deliveries[j].channel ==> i == j
  {
    assert selected[..k + 1] == selected[..k] + [selected[k]];
  }
}
