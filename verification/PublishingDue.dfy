/** What one sweep over the due posts does. */
module PublishingDue {
  import opened Common
  import opened Text
  import opened Publishing
  import opened PublishingChannels
  import opened PublishingSafety

  // ---- The due posts, in order -----------------------------------------------------------------

  ghost predicate Sorted(posts: seq<Option<Post>>, ids: seq<nat>) {
    forall i, j | 0 <= i < j < |ids| :: Schedule(posts, ids[i]) <= Schedule(posts, ids[j])
  }

  lemma AppendSorted(posts: seq<Option<Post>>, ids: seq<nat>, id: nat)
    requires Sorted(posts, ids) && Distinct(ids) && id !in ids
    requires forall x | x in ids :: Schedule(posts, x) <= Schedule(posts, id)
    ensures Sorted(posts, ids + [id]) && Distinct(ids + [id])
  {
    var r := ids + [id];
    forall i, j | 0 <= i < j < |r| ensures Schedule(posts, r[i]) <= Schedule(posts, r[j]) && r[i] != r[j] {
      assert r[i] in ids;
    }
  }

  lemma {:induction false} InsertDueInserts(posts: seq<Option<Post>>, ids: seq<nat>, id: nat)
    requires Sorted(posts, ids) && Distinct(ids) && id !in ids
    ensures Sorted(posts, InsertDue(posts, ids, id)) && Distinct(InsertDue(posts, ids, id))
    ensures forall x :: x in InsertDue(posts, ids, id) <==> x in ids || x == id
  {
    if ids == [] || Schedule(posts, ids[|ids| - 1]) <= Schedule(posts, id) {
      AppendSorted(posts, ids, id);
    } else {
      var n := |ids| - 1;
      assert ids == ids[..n] + [ids[n]];
      InsertDueInserts(posts, ids[..n], id);
      AppendSorted(posts, InsertDue(posts, ids[..n], id), ids[n]);
    }
  }

  /** The sweep works on exactly the due posts, each once, by time of schedule. */
  lemma {:induction false} DuePostsAreDue(posts: seq<Option<Post>>, now: Time, n: nat)
    requires n <= |posts|
    ensures var ids := DuePosts(posts, now, n);
            && Sorted(posts, ids) && Distinct(ids)
            && forall id: nat :: id in ids <==> id < n && IsDue(posts[id], now)
  {
    if n > 0 {
      DuePostsAreDue(posts, now, n - 1);
      if IsDue(posts[n - 1], now) {
        InsertDueInserts(posts, DuePosts(posts, now, n - 1), n - 1);
      }
    }
  }

  // ---- One sweep --------------------------------------------------------------------------------

  function IsPublished(p: Option<Post>): bool {
    p.Some? && p.value.status.Published?
  }

  /** The ids whose posts are published in `posts`, in order. */
  function PublishedAmong(posts: seq<Option<Post>>, ids: seq<nat>): seq<nat> {
    if ids == [] then []
    else
      var last := ids[|ids| - 1];
      var init := PublishedAmong(posts, ids[..|ids| - 1]);
      if last < |posts| && IsPublished(posts[last]) then init + [last] else init
  }

  lemma {:induction false} PublishedAmongSame(posts: seq<Option<Post>>, posts': seq<Option<Post>>, ids: seq<nat>)
    requires |posts'| == |posts|
    requires forall id | id in ids && id < |posts| :: IsPublished(posts'[id]) <==> IsPublished(posts[id])
    ensures PublishedAmong(posts', ids) == PublishedAmong(posts, ids)
  {
    if ids != [] {
      PublishedAmongSame(posts, posts', ids[..|ids| - 1]);
    }
  }

  /** Publishing one post leaves the others and the channels alone. */
  lemma PublishTouchesOnePost(db: Db, id: nat, remote: Remote, now: Time)
    ensures var out := ApplyPublish(db, id, remote, now);
            && out.db.channels == db.channels && |out.db.posts| == |db.posts|
            && (forall k | 0 <= k < |db.posts| && k != id :: out.db.posts[k] == db.posts[k])
            && (out.reply.Done? ==> id < |db.posts| && IsPublished(out.db.posts[id]))
            && (!out.reply.Done? && id < |db.posts| ==>
                  (IsPublished(out.db.posts[id]) <==> IsPublished(db.posts[id])) && (IsDue(db.posts[id], now) ==> IsDue(out.db.posts[id], now)))
  {
  }

  /** Whether a post publishes depends on that post, the channels and the remotes only. */
  lemma PublishDependsOnPost(db: Db, db': Db, id: nat, remote: Remote, now: Time)
    requires db'.channels == db.channels && |db'.posts| == |db.posts|
    requires id < |db.posts| ==> db'.posts[id] == db.posts[id]
    ensures ApplyPublish(db', id, remote, now).reply == ApplyPublish(db, id, remote, now).reply
    ensures id < |db.posts| ==> ApplyPublish(db', id, remote, now).db.posts[id] == ApplyPublish(db, id, remote, now).db.posts[id]
  {
  }

  ghost predicate SweepState(db: Db, db': Db, ids: seq<nat>, remote: Remote, now: Time) {
    && db'.channels == db.channels && |db'.posts| == |db.posts|
    && forall k: nat | k < |db.posts| ::
         db'.posts[k] == if k in ids then ApplyPublish(db, k, remote, now).db.posts[k] else db.posts[k]
  }

  /** A sweep does to each post what publishing it alone would do. */
  lemma {:induction false} SweepIsOneByOne(db: Db, ids: seq<nat>, remote: Remote, now: Time)
    requires Distinct(ids) && forall id | id in ids :: id < |db.posts|
    requires forall id | id in ids :: !IsPublished(db.posts[id])
    ensures var out := PublishEach(db, ids, remote, now);
            && SweepState(db, out.db, ids, remote, now)
            && out.reply == PublishedIds(PublishedAmong(out.db.posts, ids))
  {
    if ids != [] {
      var n := |ids| - 1;
      var init, id := ids[..n], ids[n];
      assert forall x :: x in ids <==> x in init || x == id;
      assert id !in init;
      SweepIsOneByOne(db, init, remote, now);
      var mid, out := PublishEach(db, init, remote, now), PublishEach(db, ids, remote, now);
      PublishTouchesOnePost(mid.db, id, remote, now);
      PublishTouchesOnePost(db, id, remote, now);
      PublishDependsOnPost(db, mid.db, id, remote, now);
      PublishedAmongSame(mid.db.posts, out.db.posts, init);
    }
  }

  /** A sweep returns exactly the due posts that are now published, in order of schedule;
      every other due post is still due, and no other post has changed.  One failure holds up
      nobody: a due post is returned exactly when publishing it alone would have succeeded. */
  lemma SweepVerdict(db: Db, remote: Remote, now: Time)
    ensures var out := ApplyPublishDue(db, remote, now);
            var due := DuePosts(db.posts, now, |db.posts|);
            && out.reply == PublishedIds(PublishedAmong(out.db.posts, due))
            && |out.db.posts| == |db.posts|
            && (forall id: nat | id < |db.posts| && IsDue(db.posts[id], now) ::
                  && (IsPublished(out.db.posts[id]) <==> ApplyPublish(db, id, remote, now).reply.Done?)
                  && (IsPublished(out.db.posts[id]) || IsDue(out.db.posts[id], now)))
            && (forall id: nat | id < |db.posts| && !IsDue(db.posts[id], now) :: out.db.posts[id] == db.posts[id])
  {
    var due := DuePosts(db.posts, now, |db.posts|);
    DuePostsAreDue(db.posts, now, |db.posts|);
    SweepIsOneByOne(db, due, remote, now);
    var out := ApplyPublishDue(db, remote, now);
    forall id: nat | id < |db.posts| && IsDue(db.posts[id], now)
      ensures IsPublished(out.db.posts[id]) <==> ApplyPublish(db, id, remote, now).reply.Done?
      ensures IsPublished(out.db.posts[id]) || IsDue(out.db.posts[id], now)
    {
      PublishTouchesOnePost(db, id, remote, now);
    }
  }

  /** The post is planned, for `t`. */
  predicate PlannedFor(posts: seq<Option<Post>>, id: nat, t: Time) {
    id < |posts| && posts[id].Some? && posts[id].value.status == Planned && posts[id].value.scheduledAt == Some(t)
  }

  /** The sweep list, told from the rows: the posts planned for a time that has come, the earliest first. */
  lemma DueVerdict(posts: seq<Option<Post>>, now: Time)
    ensures var ids := DuePosts(posts, now, |posts|);
            && (forall id: nat :: id in ids <==> exists t :: PlannedFor(posts, id, t) && t <= now)
            && (forall i, j | 0 <= i < j < |ids| :: ids[i] != ids[j])
            && (forall i, j, s, t | 0 <= i < j < |ids| && PlannedFor(posts, ids[i], s) && PlannedFor(posts, ids[j], t) :: s <= t)
  {
    DuePostsAreDue(posts, now, |posts|);
    forall id: nat | id < |posts| && IsDue(posts[id], now) ensures PlannedFor(posts, id, Schedule(posts, id)) {
    }
  }

  /** Rescheduling a post there is moves its time alone. */
  lemma RescheduleVerdict(db: Db, id: nat, at: Time)
    ensures var out := ApplyReschedule(db, id, at);
            if id < |db.posts| && db.posts[id].Some? then
              out == Outcome(db.(posts := db.posts[id := Some(db.posts[id].value.(scheduledAt := Some(at)))]), Done)
            else out == Outcome(db, PostNotFound)
  {
  }
}
