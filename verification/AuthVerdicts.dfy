/** What each request of the session machine answers and leaves behind, told from the rows of
    the tables; and where the sessions of a run come from. */
module AuthVerdicts {
  import opened Common
  import opened Auth
  import opened AuthSafety

  // ---- Login -------------------------------------------------------------------------------

  /** A login that names no provider means the local one. */
  predicate Means(name: Option<string>, provider: Provider) {
    match provider
    case Local => name.None? || name.value == "" || name.value == "local"
    case Sso => name == Some("sso")
  }

  predicate Answers(c: Credential, r: Request)
    requires r.Login?
  {
    c.isActive && c.username == Some(r.username) && Means(r.provider, c.provider)
  }

  /** The login is tried against credential `i`, the first active one of its name and provider. */
  predicate IsLoginOf(db: Db, r: Request, i: nat) {
    && r.Login? && i < |db.credentials| && Answers(db.credentials[i], r)
    && forall j: nat | j < i :: !Answers(db.credentials[j], r)
  }

  lemma LoginFinds(db: Db, r: Request)
    requires r.Login?
    ensures ResolveProvider(r.provider).Some? <==> Means(r.provider, Local) || Means(r.provider, Sso)
    ensures forall i: nat | ResolveProvider(r.provider).Some? && IsLoginOf(db, r, i) ::
              FindLogin(db.credentials, r.username, ResolveProvider(r.provider).value) == Some(i)
    ensures ResolveProvider(r.provider).Some? && FindLogin(db.credentials, r.username, ResolveProvider(r.provider).value).Some? ==>
              IsLoginOf(db, r, FindLogin(db.credentials, r.username, ResolveProvider(r.provider).value).value)
  {
    if ResolveProvider(r.provider).Some? {
      var p := ResolveProvider(r.provider).value;
      var q := (c: Credential) => c.username == Some(r.username) && c.provider == p && c.isActive;
      assert forall c :: q(c) <==> Answers(c, r);
    }
  }

  predicate LockedAt(c: Credential, now: Time) {
    c.lockedUntil.Some? && now < c.lockedUntil.value
  }

  predicate RightPassword(c: Credential, r: Request, now: Time)
    requires r.Login?
  {
    !LockedAt(c, now) && c.password == Some(r.password)
  }

  /** The answer to a login that finds credential `i`. */
  lemma LoginAnswer(db: Db, r: Request, i: nat, now: Time)
    requires IsLoginOf(db, r, i)
    ensures var c, reply := db.credentials[i], Step(db, At(now, r)).reply;
            && (reply == Rejected(AccountLocked) <==> LockedAt(c, now))
            && (reply == Rejected(InvalidCredentials) <==> !LockedAt(c, now) && c.password != Some(r.password))
            && (reply == Rejected(PasswordResetRequired) <==> RightPassword(c, r, now) && c.mustChangePassword)
            && (reply == MfaRequired(c.person) <==> RightPassword(c, r, now) && !c.mustChangePassword && r.mfa)
            && (reply == Tokens(|db.sessions|, r.minted) <==> RightPassword(c, r, now) && !c.mustChangePassword && !r.mfa)
  {
    LoginFinds(db, r);
  }

  /** A session of `person` was opened, for as many days as asked, and nothing else. */
  predicate NewSession(before: Db, after: Db, person: PersonId, ttlDays: int, minted: Token, now: Time) {
    && |after.sessions| == |before.sessions| + 1
    && after.sessions[..|before.sessions|] == before.sessions
    && after.chains == before.chains + [[minted]]
    && var s := after.sessions[|before.sessions|];
       && s.person == person && s.status == Active && s.revokedAt == None
       && s.tokenHash == Sha256(minted) && s.previousTokenHash == None && s.tokenRotatedAt == None
       && s.createdAt == now && s.lastSeenAt == now
       && s.expiresAt == now + ttlDays * (24 * 60 * 60 * 1000000)
  }

  /** What a login leaves behind, told by its answer: a right password clears failures and
      lock whether or not a second factor is still due, the fifth wrong one in a row locks
      for fifteen minutes, and only tokens come with a session. */
  lemma LoginEffect(db: Db, r: Request, i: nat, now: Time)
    requires IsLoginOf(db, r, i)
    ensures var c, out := db.credentials[i], Step(db, At(now, r));
            && |out.db.credentials| == |db.credentials|
            && (forall j | 0 <= j < |db.credentials| && j != i :: out.db.credentials[j] == db.credentials[j])
            && out.db.credentials[i] ==
                 (match out.reply
                  case Tokens(_, _) => c.(failedAttempts := 0, lockedUntil := None, lastLoginAt := Some(now))
                  case MfaRequired(_) => c.(failedAttempts := 0, lockedUntil := None, lastLoginAt := Some(now))
                  case Rejected(InvalidCredentials) =>
                    c.(failedAttempts := c.failedAttempts + 1,
                       lockedUntil := if c.failedAttempts < 4 then c.lockedUntil else Some(now + 15 * 60 * 1000000))
                  case _ => c)
            && if out.reply.Tokens? then NewSession(db, out.db, c.person, r.ttlDays, r.minted, now)
               else out.db.sessions == db.sessions && out.db.chains == db.chains
  {
    LoginFinds(db, r);
  }

  /** A login that finds no credential, with the one reason the answer tells apart. */
  lemma LoginWithoutCredential(db: Db, r: Request, now: Time)
    requires r.Login? && forall c | c in db.credentials :: !Answers(c, r)
    ensures var out := Step(db, At(now, r));
            && out.db == db
            && (out.reply == Rejected(InvalidProvider) <==> r.provider.Some? && r.provider.value !in {"", "local", "sso"})
            && (out.reply == Rejected(InvalidProvider) || out.reply == Rejected(InvalidCredentials))
  {
    LoginFinds(db, r);
  }

  lemma SecondFactor(db: Db, person: PersonId, verified: bool, ttlDays: int, minted: Token, now: Time)
    ensures var out := Step(db, At(now, MfaVerify(person, verified, ttlDays, minted)));
            && out.db.credentials == db.credentials
            && if verified then out.reply == Tokens(|db.sessions|, minted) && NewSession(db, out.db, person, ttlDays, minted, now)
               else out == Outcome(db, Rejected(InvalidMfa))
  {
  }

  // ---- Where sessions come from ----------------------------------------------------------

  /** The request proved who it is from: the right password of a person who needs no second
      factor, or a right second factor; and `s` is theirs and ends when it should. */
  ghost predicate Earned(db: Db, e: Event, s: Session) {
    match e.request
    case Login(_, _, _, mfa, ttlDays, _) =>
      exists i: nat ::
        && IsLoginOf(db, e.request, i)
        && RightPassword(db.credentials[i], e.request, e.now)
        && !db.credentials[i].mustChangePassword && !mfa
        && s.person == db.credentials[i].person
        && s.createdAt == e.now && s.expiresAt == e.now + ttlDays * (24 * 60 * 60 * 1000000)
    case MfaVerify(person, verified, ttlDays, _) =>
      verified && s.person == person && s.createdAt == e.now && s.expiresAt == e.now + ttlDays * (24 * 60 * 60 * 1000000)
    case _ => false
  }

  lemma OpeningIsEarned(db: Db, e: Event)
    requires |db.chains| == |db.sessions|
    requires |Step(db, e).db.sessions| > |db.sessions|
    ensures |Step(db, e).db.sessions| == |db.sessions| + 1
    ensures Earned(db, e, Step(db, e).db.sessions[|db.sessions|])
  {
    StepShape(db, e);
    if e.request.Login? {
      LoginFinds(db, e.request);
      var i := FindLogin(db.credentials, e.request.username, ResolveProvider(e.request.provider).value).value;
      LoginAnswer(db, e.request, i, e.now);
      LoginEffect(db, e.request, i, e.now);
    }
  }

  ghost predicate EarnedAt(db: Db, es: seq<Event>, s: Session, k: nat) {
    k < |es| && Earned(Run(db, es[..k]), es[k], s)
  }

  /** In every reachable state each session goes back to a request that proved who it was
      from; owner and end of the session are still those of that request. */
  lemma {:induction false} EverySessionWasEarned(credentials: seq<Credential>, es: seq<Event>, i: nat)
    requires FreshRun(Start(credentials), es)
    requires i < |Run(Start(credentials), es).sessions|
    ensures exists k: nat :: EarnedAt(Start(credentials), es, Run(Start(credentials), es).sessions[i], k)
  {
    var db, n := Start(credentials), |es| - 1;
    if es != [] {
      var init, mid := es[..n], Run(db, es[..n]);
      PrefixIsFresh(db, es, n);
      ReachableStatesMeetInv(credentials, init);
      if i < |mid.sessions| {
        EverySessionWasEarned(credentials, init, i);
        var k: nat :| EarnedAt(db, init, mid.sessions[i], k);
        StepOnlyAges(mid, es[n], i);
        assert init[..k] == es[..k];
        EarnedStays(Run(db, es[..k]), es[k], mid.sessions[i], Run(db, es).sessions[i]);
        assert EarnedAt(db, es, Run(db, es).sessions[i], k);
      } else {
        OpeningIsEarned(mid, es[n]);
        assert EarnedAt(db, es, Run(db, es).sessions[i], n);
      }
    }
  }

  lemma EarnedStays(db: Db, e: Event, s: Session, s': Session)
    requires Earned(db, e, s) && Older(s, s')
    ensures Earned(db, e, s')
  {
  }

  // ---- Refresh, logout, revocation and the guard --------------------------------------------

  /** The session can still be used. */
  predicate InUse(s: Session) {
    s.status == Active && s.revokedAt == None
  }

  predicate Refreshes(s: Session, t: Token, now: Time) {
    InUse(s) && s.tokenHash == Sha256(t) && now < s.expiresAt
  }

  predicate WasRotatedFrom(s: Session, t: Token) {
    InUse(s) && s.previousTokenHash == Some(Sha256(t))
  }

  lemma Holders(db: Db, i: nat, j: nat)
    requires Inv(db) && i < |db.sessions| && j < |db.sessions|
    ensures db.sessions[i].tokenHash == db.sessions[j].tokenHash ==> i == j
    ensures db.sessions[j].previousTokenHash != Some(db.sessions[i].tokenHash)
    ensures db.sessions[i].previousTokenHash.Some? && db.sessions[i].previousTokenHash == db.sessions[j].previousTokenHash ==> i == j
  {
    assert RowAgrees(db.sessions[i], db.chains[i]) && RowAgrees(db.sessions[j], db.chains[j]);
  }

  /** A token is exchanged exactly through a usable, unexpired session that holds it, and that
      session keeps its owner and its end. */
  lemma RefreshAccepts(db: Db, token: Token, minted: Token, now: Time)
    requires Inv(db)
    ensures var out := Step(db, At(now, Refresh(token, minted)));
            && (out.reply.Tokens? <==> exists i :: 0 <= i < |db.sessions| && Refreshes(db.sessions[i], token, now))
            && (out.reply == Rejected(ReuseDetected) <==> exists i :: 0 <= i < |db.sessions| && WasRotatedFrom(db.sessions[i], token))
            && out.db.credentials == db.credentials
  {
    var h := Sha256(token);
    forall i: nat, j: nat | i < |db.sessions| && j < |db.sessions| ensures
      && (db.sessions[i].tokenHash == db.sessions[j].tokenHash ==> i == j)
      && db.sessions[j].previousTokenHash != Some(db.sessions[i].tokenHash)
    {
      Holders(db, i, j);
    }
    assert forall s: Session :: Live(s) <==> InUse(s);
  }

  /** Row `i` alone is marked revoked, with the time. */
  predicate RevokesOnly(db: Db, after: Db, i: nat, now: Time) {
    && i < |db.sessions| == |after.sessions|
    && after.sessions[i] == db.sessions[i].(status := Status.Revoked, revokedAt := Some(now))
    && (forall j | 0 <= j < |db.sessions| && j != i :: after.sessions[j] == db.sessions[j])
    && after.credentials == db.credentials && after.chains == db.chains
  }

  /** Reusing a rotated token revokes the session it was rotated out of, and no other row. */
  lemma ReuseRevokes(db: Db, i: nat, token: Token, minted: Token, now: Time)
    requires Inv(db) && i < |db.sessions| && WasRotatedFrom(db.sessions[i], token)
    ensures RevokesOnly(db, Step(db, At(now, Refresh(token, minted))).db, i, now)
  {
    RefreshAccepts(db, token, minted, now);
    forall j: nat | j < |db.sessions|
      ensures db.sessions[j].tokenHash != Sha256(token)
      ensures db.sessions[j].previousTokenHash == Some(Sha256(token)) ==> j == i
    {
      Holders(db, i, j);
      Holders(db, j, i);
    }
  }

  /** Logging out ends the session that holds the token, expired or not, unless it was revoked. */
  lemma LogoutVerdict(db: Db, token: Token, now: Time)
    requires Inv(db)
    ensures var out := Step(db, At(now, Logout(token)));
            && (forall i | 0 <= i < |db.sessions| && db.sessions[i].tokenHash == Sha256(token) && db.sessions[i].revokedAt == None ::
                  out.reply == Changed(1) && RevokesOnly(db, out.db, i, now))
            && ((forall i | 0 <= i < |db.sessions| && db.sessions[i].tokenHash == Sha256(token) :: db.sessions[i].revokedAt != None) ==>
                  out == Outcome(db, Rejected(SessionNotFound)))
  {
    forall i: nat, j: nat | i < |db.sessions| && j < |db.sessions|
      ensures db.sessions[i].tokenHash == db.sessions[j].tokenHash ==> i == j
    {
      Holders(db, i, j);
    }
  }

  /** A caller ends one session: their own and not yet revoked, or any when an administrator. */
  lemma OneRevocation(db: Db, caller: PersonId, i: nat, now: Time)
    ensures var own, any := Step(db, At(now, RevokeSession(caller, i))), Step(db, At(now, DeleteSession(i)));
            var mine := i < |db.sessions| && db.sessions[i].person == caller;
            && (if mine && db.sessions[i].status != Status.Revoked then own.reply == Changed(1) && RevokesOnly(db, own.db, i, now)
                else own == Outcome(db, Rejected(if mine then AlreadyRevoked else SessionNotFound)))
            && (if i < |db.sessions| then any.reply == Changed(1) && RevokesOnly(db, any.db, i, now)
                else any == Outcome(db, Rejected(SessionNotFound)))
  {
  }

  /** Exactly the usable sessions of `person` outside `kept` are revoked at `now`. */
  predicate RevokesAllOf(db: Db, after: Db, person: PersonId, kept: set<nat>, now: Time) {
    && |after.sessions| == |db.sessions| && after.chains == db.chains
    && forall j: nat | j < |db.sessions| ::
         after.sessions[j] == if db.sessions[j].person == person && InUse(db.sessions[j]) && j !in kept
                              then db.sessions[j].(status := Status.Revoked, revokedAt := Some(now)) else db.sessions[j]
  }

  lemma OthersVerdict(db: Db, caller: PersonId, current: nat, now: Time)
    ensures var out := Step(db, At(now, RevokeOthers(caller, current)));
            && RevokesAllOf(db, out.db, caller, {current}, now)
            && out.db.credentials == db.credentials
            && out.reply == Changed(|set j | 0 <= j < |db.sessions| && db.sessions[j].person == caller && InUse(db.sessions[j]) && j != current|)
  {
    CountIsCardinality(db.sessions, caller, Some(current));
    assert ScopeSet(db.sessions, caller, Some(current))
        == set j | 0 <= j < |db.sessions| && db.sessions[j].person == caller && InUse(db.sessions[j]) && j != current;
  }

  /** Credential `i` is the first active one of `person`. */
  predicate IsCredentialOf(db: Db, person: PersonId, i: nat) {
    && i < |db.credentials| && db.credentials[i].isActive && db.credentials[i].person == person
    && forall j | 0 <= j < i :: !(db.credentials[j].isActive && db.credentials[j].person == person)
  }

  lemma OfPersonFinds(db: Db, person: PersonId)
    ensures forall i: nat | IsCredentialOf(db, person, i) :: FindOfPerson(db.credentials, person) == Some(i)
    ensures FindOfPerson(db.credentials, person).Some? ==> IsCredentialOf(db, person, FindOfPerson(db.credentials, person).value)
  {
  }

  /** Credential `i` alone is replaced by `c`. */
  predicate Replaces(db: Db, after: Db, i: nat, c: Credential) {
    && i < |db.credentials| == |after.credentials| && after.credentials[i] == c
    && forall j | 0 <= j < |db.credentials| && j != i :: after.credentials[j] == db.credentials[j]
  }

  function UsableOf(db: Db, person: PersonId): set<int> {
    set j | 0 <= j < |db.sessions| && db.sessions[j].person == person && InUse(db.sessions[j])
  }

  lemma CountsUsable(db: Db, person: PersonId)
    ensures CountInScope(db.sessions, person, None) == |UsableOf(db, person)|
  {
    CountIsCardinality(db.sessions, person, None);
    assert ScopeSet(db.sessions, person, None) == UsableOf(db, person);
  }

  /** A reset stores the new password, ends the lockout and every session. */
  lemma ResetVerdict(db: Db, person: PersonId, newPassword: string, now: Time)
    ensures var out := Step(db, At(now, ResetPassword(person, newPassword)));
            && (forall i: nat | IsCredentialOf(db, person, i) ::
                  && out.reply == Changed(|UsableOf(db, person)|)
                  && RevokesAllOf(db, out.db, person, {}, now)
                  && Replaces(db, out.db, i, db.credentials[i].(password := Some(newPassword), mustChangePassword := false,
                                                                failedAttempts := 0, lockedUntil := None)))
            && ((forall i: nat :: !IsCredentialOf(db, person, i)) ==> out == Outcome(db, Rejected(NoCredentials)))
  {
    OfPersonFinds(db, person);
    CountsUsable(db, person);
  }

  /** A change wants the stored password and a different one; it leaves the lockout alone. */
  lemma ChangeVerdict(db: Db, person: PersonId, oldPassword: string, newPassword: string, now: Time)
    ensures var out := Step(db, At(now, ChangePassword(person, oldPassword, newPassword)));
            && (forall i: nat | IsCredentialOf(db, person, i) ::
                  var c := db.credentials[i];
                  if c.password == Some(oldPassword) && oldPassword != newPassword then
                    && out.reply == Changed(|UsableOf(db, person)|)
                    && RevokesAllOf(db, out.db, person, {}, now)
                    && Replaces(db, out.db, i, c.(password := Some(newPassword), mustChangePassword := false))
                  else
                    out == Outcome(db, Rejected(if c.password == Some(oldPassword) then PasswordUnchanged else PasswordIncorrect)))
            && ((forall i: nat :: !IsCredentialOf(db, person, i)) ==> out == Outcome(db, Rejected(NoCredentials)))
  {
    OfPersonFinds(db, person);
    CountsUsable(db, person);
  }

  /** Access is through a usable, unexpired session of the person, and changes nothing. */
  lemma AccessVerdict(db: Db, person: PersonId, i: nat, now: Time)
    ensures var out := Step(db, At(now, Check(person, i)));
            && out.db == db
            && out.reply == if i < |db.sessions| && db.sessions[i].person == person && InUse(db.sessions[i]) && now < db.sessions[i].expiresAt
                            then Authenticated else Rejected(Unauthorized)
  {
  }
}
