/** What the session machine guarantees over whole runs: rotation, reuse detection,
    revocation and absolute lifetime. */
module AuthSafety {
  import opened Common
  import opened Auth

  /** Before the first login: any credentials, no session. */
  function Start(credentials: seq<Credential>): Db {
    Db([], credentials, [])
  }

  lemma ReachableStatesMeetInv(credentials: seq<Credential>, es: seq<Event>)
    requires FreshRun(Start(credentials), es)
    ensures Inv(Run(Start(credentials), es))
  {
    RunKeepsInv(Start(credentials), es);
  }

  /** Every state reachable with a generator that never repeats itself meets the invariant. */
  lemma {:induction false} RunKeepsInv(db: Db, es: seq<Event>)
    requires Inv(db) && FreshRun(db, es)
    ensures Inv(Run(db, es))
  {
    if es != [] {
      var init := es[..|es| - 1];
      PrefixIsFresh(db, es, |es| - 1);
      RunKeepsInv(db, init);
      StepKeepsInv(Run(db, init), es[|es| - 1]);
    }
  }

  lemma PrefixIsFresh(db: Db, es: seq<Event>, n: nat)
    requires FreshRun(db, es) && n <= |es|
    ensures FreshRun(db, es[..n])
  {
    forall k | 0 <= k < n ensures Fresh(Run(db, es[..n][..k]), es[..n][k].request) {
      assert es[..n][..k] == es[..k];
    }
  }

  /** A run can be cut in two. */
  lemma {:induction false} RunSplits(db: Db, es: seq<Event>, n: nat)
    requires n <= |es|
    ensures Run(db, es) == Run(Run(db, es[..n]), es[n..])
    decreases |es|
  {
    if n == |es| {
      assert es[..n] == es && es[n..] == [];
    } else {
      var init := es[..|es| - 1];
      RunSplits(db, init, n);
      assert init[..n] == es[..n];
      assert init[n..] == es[n..][..|es| - 1 - n];
    }
  }

  lemma RunExtends(db: Db, es: seq<Event>, k: nat)
    requires k < |es|
    ensures Run(db, es[..k + 1]) == Step(Run(db, es[..k]), es[k]).db
  {
    assert es[..k + 1][..k] == es[..k];
  }

  // ---- Refresh ---------------------------------------------------------------------------

  /** What refresh does with any token ever handed out, told by its place in the history of
      its session: the last one rotates, the one before it revokes the session, every older
      one is refused and changes nothing. */
  lemma RefreshVerdict(db: Db, i: nat, a: nat, minted: Token, now: Time)
    requires Inv(db)
    requires i < |db.chains| && a < |db.chains[i]|
    ensures var token := db.chains[i][a];
            var s := db.sessions[i];
            var out := ApplyRefresh(db, token, minted, now);
            if !Live(s) || a + 2 < |db.chains[i]| then
              out == Outcome(db, Rejected(InvalidRefreshToken))
            else if a + 2 == |db.chains[i]| then
              out == Outcome(db.(sessions := db.sessions[i := Revoke(s, now)]), Rejected(ReuseDetected))
            else if s.expiresAt <= now then
              out == Outcome(db.(sessions := db.sessions[i := s.(status := Expired)]), Rejected(RefreshTokenExpired))
            else
              Rotated(db, out.db, token, minted, now, i) && out.reply == Tokens(i, minted)
  {
    var token := db.chains[i][a];
    HoldersAreUnique(db, i, a);
    assert FindCurrent(db.sessions, Sha256(token)).None? || FindCurrent(db.sessions, Sha256(token)) == Some(i);
    assert FindPrevious(db.sessions, Sha256(token)).None? || FindPrevious(db.sessions, Sha256(token)) == Some(i);
    assert RowAgrees(db.sessions[i], db.chains[i]);
  }

  /** Only the session a token belongs to can hold its digest. */
  lemma HoldersAreUnique(db: Db, i: nat, a: nat)
    requires Inv(db)
    requires i < |db.chains| && a < |db.chains[i]|
    ensures forall j | 0 <= j < |db.sessions| ::
              && (db.sessions[j].tokenHash == Sha256(db.chains[i][a]) <==> j == i && a == |db.chains[i]| - 1)
              && (db.sessions[j].previousTokenHash == Some(Sha256(db.chains[i][a])) <==> j == i && a == |db.chains[i]| - 2)
  {
    forall j | 0 <= j < |db.sessions|
      ensures db.sessions[j].tokenHash == Sha256(db.chains[i][a]) <==> j == i && a == |db.chains[i]| - 1
      ensures db.sessions[j].previousTokenHash == Some(Sha256(db.chains[i][a])) <==> j == i && a == |db.chains[i]| - 2
    {
      assert RowAgrees(db.sessions[j], db.chains[j]);
    }
  }

  /** A token nobody was given is refused and changes nothing. */
  lemma ForgedTokenRefused(db: Db, token: Token, minted: Token, now: Time)
    requires Inv(db) && !Issued(db, token)
    ensures ApplyRefresh(db, token, minted, now) == Outcome(db, Rejected(InvalidRefreshToken))
  {
    forall j | 0 <= j < |db.sessions|
      ensures db.sessions[j].tokenHash != Sha256(token) && db.sessions[j].previousTokenHash != Some(Sha256(token))
    {
      assert RowAgrees(db.sessions[j], db.chains[j]);
    }
  }

  /** A token that was handed out and is no longer the last of its session. */
  ghost predicate Spent(db: Db, t: Token) {
    Issued(db, t) && forall i | 0 <= i < |db.sessions| :: db.sessions[i].tokenHash != Sha256(t)
  }

  lemma AcceptedIsSpent(db: Db, e: Event)
    requires Inv(db) && Fresh(db, e.request)
    requires e.request.Refresh? && Step(db, e).reply.Tokens?
    ensures Spent(Step(db, e).db, e.request.token)
  {
    StepShape(db, e);
    StepKeepsInv(db, e);
    var out := Step(db, e);
    var i := out.reply.session;
    assert RowAgrees(db.sessions[i], db.chains[i]);
    var a := |db.chains[i]| - 1;
    assert out.db.chains[i][a] == e.request.token;
    HoldersAreUnique(out.db, i, a);
  }

  lemma PlaceOfSpent(db: Db, t: Token) returns (i: nat, a: nat)
    requires Inv(db) && Spent(db, t)
    ensures i < |db.chains| && a + 1 < |db.chains[i]| && db.chains[i][a] == t
  {
    i, a :| 0 <= i < |db.chains| && 0 <= a < |db.chains[i]| && db.chains[i][a] == t;
    assert RowAgrees(db.sessions[i], db.chains[i]);
  }

  lemma SpentByPlace(db: Db, t: Token, i: nat, a: nat)
    requires Inv(db)
    requires i < |db.chains| && a + 1 < |db.chains[i]| && db.chains[i][a] == t
    ensures Spent(db, t)
  {
    HoldersAreUnique(db, i, a);
  }

  lemma StepKeepsSpent(db: Db, e: Event, t: Token)
    requires Inv(db) && Fresh(db, e.request) && Spent(db, t)
    ensures Spent(Step(db, e).db, t)
  {
    var i, a := PlaceOfSpent(db, t);
    StepKeepsInv(db, e);
    StepOnlyAges(db, e, i);
    SpentByPlace(Step(db, e).db, t, i, a);
  }

  lemma {:induction false} RunKeepsSpent(db: Db, es: seq<Event>, t: Token)
    requires Inv(db) && FreshRun(db, es) && Spent(db, t)
    ensures Spent(Run(db, es), t)
  {
    if es != [] {
      var n := |es| - 1;
      PrefixIsFresh(db, es, n);
      RunKeepsSpent(db, es[..n], t);
      RunKeepsInv(db, es[..n]);
      StepKeepsSpent(Run(db, es[..n]), es[n], t);
    }
  }

  /** Single use: over every run, no refresh token is accepted twice. */
  lemma TokenAcceptedAtMostOnce(db: Db, es: seq<Event>, j: nat, k: nat)
    requires Inv(db) && FreshRun(db, es)
    requires j < k < |es|
    requires es[j].request.Refresh? && ReplyAt(db, es, j).Tokens?
    requires es[k].request.Refresh? && ReplyAt(db, es, k).Tokens?
    ensures es[j].request.token != es[k].request.token
  {
    var t, n := es[j].request.token, j + 1;
    SpentOnceAccepted(db, es, j);
    LaterReplies(db, es, n, k);
    if es[k].request.token == t {
      assert es[n..][k - n] == es[k];
      SpentNeverAccepted(Run(db, es[..n]), es[n..], t, k - n);
    }
  }

  lemma SpentOnceAccepted(db: Db, es: seq<Event>, j: nat)
    requires Inv(db) && FreshRun(db, es)
    requires j < |es| && es[j].request.Refresh? && ReplyAt(db, es, j).Tokens?
    ensures Spent(Run(db, es[..j + 1]), es[j].request.token)
  {
    Continuation(db, es, j, j);
    RunExtends(db, es, j);
    AcceptedIsSpent(Run(db, es[..j]), es[j]);
  }

  lemma SpentNeverAccepted(db: Db, es: seq<Event>, t: Token, k: nat)
    requires Inv(db) && FreshRun(db, es) && Spent(db, t)
    requires k < |es| && es[k].request.Refresh? && es[k].request.token == t
    ensures !ReplyAt(db, es, k).Tokens?
  {
    PrefixIsFresh(db, es, k);
    RunKeepsSpent(db, es[..k], t);
    RunKeepsInv(db, es[..k]);
    StepShape(Run(db, es[..k]), es[k]);
  }

  /** The part of a run after its first `n` requests is itself a run. */
  lemma Continuation(db: Db, es: seq<Event>, n: nat, k: nat)
    requires Inv(db) && FreshRun(db, es)
    requires n <= k <= |es|
    ensures Inv(Run(db, es[..n]))
    ensures FreshRun(Run(db, es[..n]), es[n..k])
    ensures Run(db, es[..k]) == Run(Run(db, es[..n]), es[n..k])
  {
    PrefixIsFresh(db, es, n);
    RunKeepsInv(db, es[..n]);
    RunMeets(db, es, n, k);
    FreshSuffix(db, es, n, k);
  }

  lemma RunMeets(db: Db, es: seq<Event>, n: nat, k: nat)
    requires n <= k <= |es|
    ensures Run(db, es[..k]) == Run(Run(db, es[..n]), es[n..k])
  {
    RunSplits(db, es[..k], n);
    assert es[..k][..n] == es[..n] && es[..k][n..] == es[n..k];
  }

  lemma FreshSuffix(db: Db, es: seq<Event>, n: nat, k: nat)
    requires FreshRun(db, es)
    requires n <= k <= |es|
    ensures FreshRun(Run(db, es[..n]), es[n..k])
  {
    forall m | 0 <= m < |es[n..k]| ensures Fresh(Run(Run(db, es[..n]), es[n..k][..m]), es[n..k][m].request) {
      FreshAt(db, es, n, k, m);
    }
  }

  lemma FreshAt(db: Db, es: seq<Event>, n: nat, k: nat, m: nat)
    requires n <= k <= |es| && m < k - n
    requires FreshRun(db, es)
    ensures Fresh(Run(Run(db, es[..n]), es[n..k][..m]), es[n..k][m].request)
  {
    assert es[n..k][..m] == es[n..n + m];
    RunMeets(db, es, n, n + m);
    assert Fresh(Run(db, es[..n + m]), es[n + m].request);
  }

  // ---- Sessions only age -----------------------------------------------------------------

  /** The only status changes: active to expired, active to revoked, expired to revoked.
      Owner, creation time and expiry never change. */
  ghost predicate Older(s: Session, s': Session) {
    && s'.person == s.person && s'.createdAt == s.createdAt && s'.expiresAt == s.expiresAt
    && (s.status.Revoked? ==> s'.status.Revoked?)
    && (s.status.Expired? ==> !s'.status.Active?)
    && (!Live(s) ==> !Live(s'))
  }

  lemma StepOnlyAges(db: Db, e: Event, i: nat)
    requires Inv(db) && i < |db.sessions|
    ensures i < |Step(db, e).db.sessions|
    ensures Older(db.sessions[i], Step(db, e).db.sessions[i])
    ensures i < |Step(db, e).db.chains| && db.chains[i] <= Step(db, e).db.chains[i]
  {
    StepShape(db, e);
    var db' := Step(db, e).db;
    if |db'.sessions| > |db.sessions| {
      assert db'.sessions[i] == db'.sessions[..|db.sessions|][i];
    }
  }

  lemma {:induction false} RunOnlyAges(db: Db, es: seq<Event>, i: nat)
    requires Inv(db) && FreshRun(db, es) && i < |db.sessions|
    ensures i < |Run(db, es).sessions|
    ensures Older(db.sessions[i], Run(db, es).sessions[i])
    ensures i < |Run(db, es).chains| && db.chains[i] <= Run(db, es).chains[i]
  {
    if es != [] {
      var n := |es| - 1;
      PrefixIsFresh(db, es, n);
      RunOnlyAges(db, es[..n], i);
      RunKeepsInv(db, es[..n]);
      StepOnlyAges(Run(db, es[..n]), es[n], i);
    }
  }

  /** The request got access through session `i`: it refreshed it, or passed the guard. */
  ghost predicate Uses(e: Event, reply: Reply, i: nat) {
    match e.request
    case Refresh(_, _) => reply.Tokens? && reply.session == i
    case Check(_, j) => j == i && reply.Authenticated?
    case _ => false
  }

  lemma UseNeedsLiveSession(db: Db, e: Event, i: nat)
    requires Inv(db) && Uses(e, Step(db, e).reply, i)
    ensures i < |db.sessions| && Live(db.sessions[i]) && e.now < db.sessions[i].expiresAt
  {
    StepShape(db, e);
  }

  /** A session that is no longer live is never used again, whatever happens next. */
  lemma DeadSessionNeverUsed(db: Db, es: seq<Event>, i: nat, k: nat)
    requires Inv(db) && FreshRun(db, es)
    requires i < |db.sessions| && !Live(db.sessions[i])
    requires k < |es|
    ensures !Uses(es[k], ReplyAt(db, es, k), i)
  {
    PrefixIsFresh(db, es, k);
    RunKeepsInv(db, es[..k]);
    RunOnlyAges(db, es[..k], i);
    if Uses(es[k], ReplyAt(db, es, k), i) {
      UseNeedsLiveSession(Run(db, es[..k]), es[k], i);
    }
  }

  /** Absolute lifetime: no chain of refreshes, however long, gives access at or after the
      expiry fixed when the session was opened. */
  lemma NoUseAfterExpiry(db: Db, es: seq<Event>, i: nat, k: nat)
    requires Inv(db) && FreshRun(db, es)
    requires i < |db.sessions| && k < |es|
    requires Uses(es[k], ReplyAt(db, es, k), i)
    ensures es[k].now < db.sessions[i].expiresAt
  {
    PrefixIsFresh(db, es, k);
    RunKeepsInv(db, es[..k]);
    RunOnlyAges(db, es[..k], i);
    UseNeedsLiveSession(Run(db, es[..k]), es[k], i);
  }

  /** Reuse detection over runs: replaying the token just rotated out of a live session is
      refused, and that session is dead for the rest of the run. */
  lemma ReplayEndsSession(db: Db, es: seq<Event>, i: nat, j: nat, k: nat)
    requires Inv(db) && FreshRun(db, es)
    requires j < k < |es|
    requires var before := Run(db, es[..j]);
             && i < |before.chains| == |before.sessions| && |before.chains[i]| >= 2 && Live(before.sessions[i])
             && es[j].request.Refresh? && es[j].request.token == before.chains[i][|before.chains[i]| - 2]
    ensures ReplyAt(db, es, j) == Rejected(ReuseDetected)
    ensures !Uses(es[k], ReplyAt(db, es, k), i)
  {
    ReplayedIsDead(db, es, i, j);
    LaterReplies(db, es, j + 1, k);
    DeadSessionNeverUsed(Run(db, es[..j + 1]), es[j + 1..], i, k - (j + 1));
  }

  lemma ReplayedIsDead(db: Db, es: seq<Event>, i: nat, j: nat)
    requires Inv(db) && FreshRun(db, es) && j < |es|
    requires var before := Run(db, es[..j]);
             && i < |before.chains| == |before.sessions| && |before.chains[i]| >= 2 && Live(before.sessions[i])
             && es[j].request.Refresh? && es[j].request.token == before.chains[i][|before.chains[i]| - 2]
    ensures ReplyAt(db, es, j) == Rejected(ReuseDetected)
    ensures i < |Run(db, es[..j + 1]).sessions| && !Live(Run(db, es[..j + 1]).sessions[i])
  {
    PrefixIsFresh(db, es, j);
    RunKeepsInv(db, es[..j]);
    ReplayKills(Run(db, es[..j]), es[j], i);
    RunExtends(db, es, j);
  }

  lemma ReplayKills(db: Db, e: Event, i: nat)
    requires Inv(db)
    requires i < |db.chains| && |db.chains[i]| >= 2 && Live(db.sessions[i])
    requires e.request.Refresh? && e.request.token == db.chains[i][|db.chains[i]| - 2]
    ensures Step(db, e) == Outcome(db.(sessions := db.sessions[i := Revoke(db.sessions[i], e.now)]), Rejected(ReuseDetected))
  {
    RefreshVerdict(db, i, |db.chains[i]| - 2, e.request.minted, e.now);
  }

  /** Replies late in a run are the replies of the continuation. */
  lemma LaterReplies(db: Db, es: seq<Event>, n: nat, k: nat)
    requires Inv(db) && FreshRun(db, es)
    requires n <= k < |es|
    ensures Inv(Run(db, es[..n])) && FreshRun(Run(db, es[..n]), es[n..])
    ensures ReplyAt(db, es, k) == ReplyAt(Run(db, es[..n]), es[n..], k - n)
  {
    Continuation(db, es, n, |es|);
    assert es[n..|es|] == es[n..];
    Continuation(db, es, n, k);
    assert es[n..][..k - n] == es[n..k];
  }

  // ---- Mass revocation -------------------------------------------------------------------

  /** Mass revocation ends exactly the person's live sessions other than the excluded one,
      touches no other row, and reports how many it ended. */
  lemma MassRevocationIsExact(sessions: seq<Session>, person: PersonId, exclude: Option<nat>, now: Time)
    ensures var after := RevokeAll(sessions, person, exclude, now);
            && (forall i | 0 <= i < |sessions| ::
                  && (Live(after[i]) <==> Live(sessions[i]) && (sessions[i].person != person || exclude == Some(i)))
                  && (after[i] == sessions[i] || after[i] == Revoke(sessions[i], now)))
            && CountInScope(sessions, person, exclude) == |set i | 0 <= i < |sessions| && after[i] != sessions[i]|
  {
    var after := RevokeAll(sessions, person, exclude, now);
    CountIsCardinality(sessions, person, exclude);
    assert (set i | 0 <= i < |sessions| && after[i] != sessions[i])
        == ScopeSet(sessions, person, exclude);
  }

  function ScopeSet(sessions: seq<Session>, person: PersonId, exclude: Option<nat>): set<int> {
    set i | 0 <= i < |sessions| && InScope(sessions[i], i, person, exclude)
  }

  lemma ScopeSetOneMore(sessions: seq<Session>, person: PersonId, exclude: Option<nat>)
    requires sessions != []
    ensures var n := |sessions| - 1;
            var few := ScopeSet(sessions[..n], person, exclude);
            n !in few && ScopeSet(sessions, person, exclude) == few + (if InScope(sessions[n], n, person, exclude) then {n} else {})
  {
    var n := |sessions| - 1;
    assert forall i | 0 <= i < n :: sessions[..n][i] == sessions[i];
  }

  lemma {:induction false} CountIsCardinality(sessions: seq<Session>, person: PersonId, exclude: Option<nat>)
    ensures CountInScope(sessions, person, exclude) == |ScopeSet(sessions, person, exclude)|
  {
    if sessions == [] {
    } else {
      CountIsCardinality(sessions[..|sessions| - 1], person, exclude);
      ScopeSetOneMore(sessions, person, exclude);
    }
  }

  /** A completed password reset or change ends, for good, every session the person had. */
  lemma NewPasswordEndsOldSessions(db: Db, e: Event, es: seq<Event>, i: nat, k: nat)
    requires Inv(db) && Fresh(db, e.request) && FreshRun(Step(db, e).db, es)
    requires e.request.ResetPassword? || e.request.ChangePassword?
    requires Step(db, e).reply.Changed?
    requires i < |db.sessions| && db.sessions[i].person == e.request.person
    requires k < |es|
    ensures !Uses(es[k], ReplyAt(Step(db, e).db, es, k), i)
  {
    StepKeepsInv(db, e);
    MassRevocationIsExact(db.sessions, e.request.person, None, e.now);
    DeadSessionNeverUsed(Step(db, e).db, es, i, k);
  }
}
