/** The failing case: two listed posts with one text.  The second is matched to what the first was
    imported as and takes its id over; the next pass gives the post back to the first; and so on for
    ever. */
module RemoteSyncTwins {
  import opened Common
  import opened Text
  import opened RemoteSync
  import opened RemoteSyncLaws
  import opened RemoteSyncFixpoint

  function Iterate<T>(f: T -> T, x: T, n: nat): T {
    if n == 0 then x else f(Iterate(f, x, n - 1))
  }

  /** From `x` to `b`, to `a`, to `b`, and so on. */
  lemma {:induction false} Alternates<T>(f: T -> T, x: T, a: T, b: T, n: nat)
    requires f(x) == b && f(b) == a && f(a) == b && n >= 1
    ensures Iterate(f, x, n) == if n % 2 == 1 then b else a
  {
    if n == 1 {
      assert Iterate(f, x, 0) == x;
    } else {
      Alternates(f, x, a, b, n - 1);
    }
  }

  lemma AlternatesForEver<T>(f: T -> T, x: T, a: T, b: T, n: nat)
    requires f(x) == b && f(b) == a && f(a) == b && a != b && x != b
    ensures Iterate(f, x, n + 1) != Iterate(f, x, n)
  {
    Alternates(f, x, a, b, n + 1);
    if n >= 1 {
      Alternates(f, x, a, b, n);
    }
  }

  /** The state after `n` passes over one listing. */
  function Passes(db: Db, s: Source, listing: seq<Remote>, n: nat): Db {
    Iterate(d => Pass(d, s, listing), db, n)
  }

  ghost predicate Twins(s: Source, text: string, first: Remote, second: Remote) {
    && s.Accepts(first) && s.Accepts(second)
    && Clean(Some(text)) != "" && first.content == second.content == Some(text)
    && first.publishedAt.None? && second.publishedAt.None?
    && IdOf(first) != "" && IdOf(second) != "" && IdOf(first) != IdOf(second)
  }

  /** The one post there is, with the id it carries and the id queries find it by. */
  function One(s: Source, first: Remote, id: string, stored: Option<string>): Db {
    Db([Some(Imported(s, first).(externalId := Some(id), storedId := stored))], [])
  }

  lemma OneRow<T>(x: T, p: T -> bool)
    ensures Count([x], p) == (if p(x) then 1 else 0)
    ensures First([x], p) == (if p(x) then Some(0) else None)
  {
    assert [x][..0] == [] && [x][1..] == [];
  }

  /** Either twin is matched to the post, or skipped when queries find its id there. */
  lemma TwinStep(s: Source, text: string, first: Remote, second: Remote, r: Remote, id: string, stored: Option<string>)
    requires Twins(s, text, first, second) && (r == first || r == second)
    ensures SyncOne(One(s, first, id, stored), s, r) ==
            if stored == Some(IdOf(r)) then One(s, first, id, stored) else One(s, first, IdOf(r), stored)
  {
    var db := One(s, first, id, stored);
    var post := db.posts[0];
    StripTrims(Or(Some(text), ""));
    assert Matches(s, r, post);
    OneRow(post, p => Matches(s, r, p));
    OneRow(post, p => Holds(p, s.channel, IdOf(r)));
    assert First(db.deliveries, d => Delivers(d, s.channel, IdOf(r))).None?;
    assert Attach(db, 0, IdOf(r)).posts == One(s, first, IdOf(r), stored).posts;
  }

  lemma FirstTwin(s: Source, r: Remote)
    requires s.Accepts(r) && IdOf(r) != ""
    ensures SyncOne(Db([], []), s, r) == One(s, r, IdOf(r), None)
  {
    var grown := Db([Some(Imported(s, r))], []);
    assert Flush(grown) == grown by {
      assert Flush(grown).posts == grown.posts;
    }
    assert Db([], []).posts + [Some(Imported(s, r))] == grown.posts;
  }

  lemma FlushOne(s: Source, first: Remote, id: string, stored: Option<string>)
    ensures Flush(One(s, first, id, stored)) == One(s, first, id, Some(id))
  {
    assert Flush(One(s, first, id, stored)).posts == One(s, first, id, Some(id)).posts;
  }

  lemma TwoSteps(db: Db, s: Source, first: Remote, second: Remote)
    ensures SyncUpTo(db, s, [first, second], 2) == SyncOne(SyncOne(db, s, first), s, second)
  {
    var listing := [first, second];
    assert SyncUpTo(db, s, listing, 1) == SyncOne(SyncUpTo(db, s, listing, 0), s, listing[0]);
    assert SyncUpTo(db, s, listing, 2) == SyncOne(SyncUpTo(db, s, listing, 1), s, listing[1]);
  }

  /** The post carries a listed id, so reconciliation leaves it. */
  lemma NothingGone(s: Source, first: Remote, second: Remote, id: string)
    requires id == IdOf(first) || id == IdOf(second)
    requires IdOf(first) != "" && IdOf(second) != ""
    ensures Reconcile(One(s, first, id, Some(id)), s, [first, second]) == One(s, first, id, Some(id))
  {
    var db, listing := One(s, first, id, Some(id)), [first, second];
    assert listing[0] == first && listing[1] == second;
    assert id in ListedIds(listing);
    ListedIdsAreClean(listing);
    NobodyDoomedReconcileIdle(db, s, listing);
  }

  /** One pass hands the post from one twin to the other. */
  lemma PassSwaps(s: Source, text: string, first: Remote, second: Remote, id: string)
    requires Twins(s, text, first, second) && (id == IdOf(first) || id == IdOf(second))
    ensures var other := if id == IdOf(first) then IdOf(second) else IdOf(first);
            Pass(One(s, first, id, Some(id)), s, [first, second]) == One(s, first, other, Some(other))
  {
    var other := if id == IdOf(first) then IdOf(second) else IdOf(first);
    NothingGone(s, first, second, id);
    TwoSteps(One(s, first, id, Some(id)), s, first, second);
    TwinStep(s, text, first, second, first, id, Some(id));
    TwinStep(s, text, first, second, second, if id == IdOf(first) then id else IdOf(first), Some(id));
    FlushOne(s, first, other, Some(id));
  }

  lemma FirstPass(s: Source, text: string, first: Remote, second: Remote)
    requires Twins(s, text, first, second)
    ensures Pass(Db([], []), s, [first, second]) == One(s, first, IdOf(second), Some(IdOf(second)))
  {
    NobodyDoomedReconcileIdle(Db([], []), s, [first, second]);
    TwoSteps(Db([], []), s, first, second);
    FirstTwin(s, first);
    TwinStep(s, text, first, second, second, IdOf(first), None);
    FlushOne(s, first, IdOf(second), None);
  }

  /** After every pass there is the one post, with the second id after an odd number of passes and the
      first after an even number. */
  lemma AfterPasses(s: Source, text: string, first: Remote, second: Remote, n: nat)
    requires Twins(s, text, first, second) && n >= 1
    ensures var id := if n % 2 == 1 then IdOf(second) else IdOf(first);
            Passes(Db([], []), s, [first, second], n) == One(s, first, id, Some(id))
  {
    FirstPass(s, text, first, second);
    PassSwaps(s, text, first, second, IdOf(first));
    PassSwaps(s, text, first, second, IdOf(second));
    Alternates(d => Pass(d, s, [first, second]), Db([], []),
               One(s, first, IdOf(first), Some(IdOf(first))), One(s, first, IdOf(second), Some(IdOf(second))), n);
  }

  lemma OneHolds(s: Source, first: Remote, id: string, x: string)
    ensures Held(One(s, first, id, Some(id)), s.channel, x) <==> x == id
  {
    OneRow(One(s, first, id, Some(id)).posts[0], p => Holds(p, s.channel, x));
  }

  lemma OnesDiffer(s: Source, first: Remote, x: string, y: string)
    requires x != y
    ensures One(s, first, x, Some(x)) != One(s, first, y, Some(y)) && Db([], []) != One(s, first, y, Some(y))
  {
    assert One(s, first, x, Some(x)).posts[0].value.externalId != One(s, first, y, Some(y)).posts[0].value.externalId;
  }

  /** However many passes have been made, the next one changes the tables again. */
  lemma TwinsNeverSettle(s: Source, text: string, first: Remote, second: Remote, n: nat)
    requires Twins(s, text, first, second)
    ensures Passes(Db([], []), s, [first, second], n + 1) != Passes(Db([], []), s, [first, second], n)
  {
    FirstPass(s, text, first, second);
    PassSwaps(s, text, first, second, IdOf(first));
    PassSwaps(s, text, first, second, IdOf(second));
    OnesDiffer(s, first, IdOf(first), IdOf(second));
    AlternatesForEver(d => Pass(d, s, [first, second]), Db([], []),
                      One(s, first, IdOf(first), Some(IdOf(first))), One(s, first, IdOf(second), Some(IdOf(second))), n);
  }

  /** And one of the two listed ids is never known. */
  lemma OneTwinIsUnknown(s: Source, text: string, first: Remote, second: Remote, n: nat)
    requires Twins(s, text, first, second) && n >= 1
    ensures var now := Passes(Db([], []), s, [first, second], n);
            Held(now, s.channel, IdOf(first)) <==> !Held(now, s.channel, IdOf(second))
  {
    var id := if n % 2 == 1 then IdOf(second) else IdOf(first);
    AfterPasses(s, text, first, second, n);
    OneHolds(s, first, id, IdOf(first));
    OneHolds(s, first, id, IdOf(second));
  }
}
