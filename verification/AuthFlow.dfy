/** The session and credential tables, changed in place one request at a time. */
module AuthFlow {
  import opened Common
  import opened Auth

  class AuthService {
    var sessions: seq<Session>
    var credentials: seq<Credential>
    ghost var chains: seq<seq<Token>>

    ghost function State(): Db
      reads this
    {
      Db(sessions, credentials, chains)
    }

    constructor (credentials: seq<Credential>)
      ensures State() == Db([], credentials, [])
    {
      this.sessions := [];
      this.credentials := credentials;
      this.chains := [];
    }

    method IssueTokens(person: PersonId, ttlDays: int, minted: Token, now: Time) returns (r: Reply)
      modifies this
      ensures Outcome(State(), r) == Auth.IssueTokens(old(State()), person, ttlDays, minted, now)
    {
      var expiresAt := now + ttlDays * DAY;
      var session := Session(person, Active, Sha256(minted), None, None, now, now, expiresAt, None);
      r := Tokens(|sessions|, minted);
      sessions := sessions + [session];
      chains := chains + [[minted]];
    }

    method Login(username: string, password: string, provider: Option<string>, mfa: bool, ttlDays: int,
                 minted: Token, now: Time)
      returns (r: Reply)
      modifies this
      ensures Outcome(State(), r) == Apply(old(State()), Request.Login(username, password, provider, mfa, ttlDays, minted), now)
    {
      var resolved := ResolveProvider(provider);
      if resolved.None? {
        return Rejected(InvalidProvider);
      }
      var found := FindLogin(credentials, username, resolved.value);
      if found.None? {
        return Rejected(InvalidCredentials);
      }
      var i := found.value;
      var c := credentials[i];
      if c.lockedUntil.Some? && c.lockedUntil.value > now {
        return Rejected(AccountLocked);
      }
      if !Verifies(c, password) {
        c := c.(failedAttempts := c.failedAttempts + 1);
        if c.failedAttempts >= MAX_FAILURES {
          c := c.(lockedUntil := Some(now + LOCK_TIME));
        }
        credentials := credentials[i := c];
        return Rejected(InvalidCredentials);
      }
      if c.mustChangePassword {
        return Rejected(PasswordResetRequired);
      }
      c := c.(failedAttempts := 0);
      c := c.(lockedUntil := None);
      c := c.(lastLoginAt := Some(now));
      credentials := credentials[i := c];
      if mfa {
        return MfaRequired(c.person);
      }
      r := IssueTokens(c.person, ttlDays, minted, now);
    }

    /** The second factor; `verified` is what checking the code says. */
    method MfaVerify(person: PersonId, verified: bool, ttlDays: int, minted: Token, now: Time) returns (r: Reply)
      modifies this
      ensures Outcome(State(), r) == Apply(old(State()), Request.MfaVerify(person, verified, ttlDays, minted), now)
    {
      if !verified {
        return Rejected(InvalidMfa);
      }
      r := IssueTokens(person, ttlDays, minted, now);
    }

    method Refresh(token: Token, minted: Token, now: Time) returns (r: Reply)
      modifies this
      ensures Outcome(State(), r) == Apply(old(State()), Request.Refresh(token, minted), now)
    {
      var current := FindCurrent(sessions, Sha256(token));
      if current.None? {
        var reused := FindPrevious(sessions, Sha256(token));
        if reused.Some? {
          var s := sessions[reused.value];
          s := s.(status := Revoked);
          s := s.(revokedAt := Some(now));
          sessions := sessions[reused.value := s];
          return Rejected(ReuseDetected);
        }
        return Rejected(InvalidRefreshToken);
      }
      var i := current.value;
      var s := sessions[i];
      if s.expiresAt <= now {
        sessions := sessions[i := s.(status := Expired)];
        return Rejected(RefreshTokenExpired);
      }
      s := s.(previousTokenHash := Some(s.tokenHash));
      s := s.(tokenHash := Sha256(minted));
      s := s.(tokenRotatedAt := Some(now));
      s := s.(lastSeenAt := now);
      sessions := sessions[i := s];
      chains := Extend(chains, i, minted);
      r := Tokens(i, minted);
    }

    method Logout(token: Token, now: Time) returns (r: Reply)
      modifies this
      ensures Outcome(State(), r) == Apply(old(State()), Request.Logout(token), now)
    {
      var found := FindUnrevoked(sessions, Sha256(token));
      if found.None? {
        return Rejected(SessionNotFound);
      }
      var s := sessions[found.value];
      s := s.(status := Revoked);
      s := s.(revokedAt := Some(now));
      sessions := sessions[found.value := s];
      r := Changed(1);
    }

    method RevokeSessionsForPerson(person: PersonId, exclude: Option<nat>, now: Time) returns (count: nat)
      modifies this`sessions
      ensures sessions == RevokeAll(old(sessions), person, exclude, now)
      ensures count == CountInScope(old(sessions), person, exclude)
    {
      ghost var before := sessions;
      var i := 0;
      count := 0;
      while i < |sessions|
        invariant i <= |sessions| == |before|
        invariant forall k | 0 <= k < i :: sessions[k] == RevokeAll(before, person, exclude, now)[k]
        invariant forall k | i <= k < |sessions| :: sessions[k] == before[k]
        invariant count == CountInScope(before[..i], person, exclude)
      {
        assert before[..i + 1][..i] == before[..i];
        if InScope(sessions[i], i, person, exclude) {
          var s := sessions[i];
          s := s.(status := Revoked);
          s := s.(revokedAt := Some(now));
          sessions := sessions[i := s];
          count := count + 1;
        }
        i := i + 1;
      }
      assert before[..i] == before;
    }

    method RevokeOthers(caller: PersonId, current: nat, now: Time) returns (r: Reply)
      modifies this
      ensures Outcome(State(), r) == Apply(old(State()), Request.RevokeOthers(caller, current), now)
    {
      var count := RevokeSessionsForPerson(caller, Some(current), now);
      r := Changed(count);
    }

    method RevokeSession(caller: PersonId, session: nat, now: Time) returns (r: Reply)
      modifies this
      ensures Outcome(State(), r) == Apply(old(State()), Request.RevokeSession(caller, session), now)
    {
      if session >= |sessions| || sessions[session].person != caller {
        return Rejected(SessionNotFound);
      }
      var s := sessions[session];
      if s.status.Revoked? {
        return Rejected(AlreadyRevoked);
      }
      s := s.(status := Revoked);
      s := s.(revokedAt := Some(now));
      sessions := sessions[session := s];
      r := Changed(1);
    }

    method DeleteSession(session: nat, now: Time) returns (r: Reply)
      modifies this
      ensures Outcome(State(), r) == Apply(old(State()), Request.DeleteSession(session), now)
    {
      if session >= |sessions| {
        return Rejected(SessionNotFound);
      }
      var s := sessions[session];
      s := s.(status := Revoked);
      s := s.(revokedAt := Some(now));
      sessions := sessions[session := s];
      r := Changed(1);
    }

    /** The guard finds the session by a query over the whole table. */
    method RequireUserAuth(person: PersonId, session: nat, now: Time) returns (r: Reply)
      ensures r == (if session < |sessions| && sessions[session].person == person && Live(sessions[session])
                       && now < sessions[session].expiresAt
                    then Authenticated else Rejected(Unauthorized))
    {
      if session >= |sessions| {
        return Rejected(Unauthorized);
      }
      var s := sessions[session];
      if s.person != person || !s.status.Active? || s.revokedAt.Some? || s.expiresAt <= now {
        return Rejected(Unauthorized);
      }
      r := Authenticated;
    }

    method ResetPassword(person: PersonId, newPassword: string, now: Time) returns (r: Reply)
      modifies this
      ensures Outcome(State(), r) == Apply(old(State()), Request.ResetPassword(person, newPassword), now)
    {
      var found := FindOfPerson(credentials, person);
      if found.None? {
        return Rejected(NoCredentials);
      }
      var c := credentials[found.value];
      c := c.(password := Some(newPassword));
      c := c.(mustChangePassword := false);
      c := c.(failedAttempts := 0);
      c := c.(lockedUntil := None);
      credentials := credentials[found.value := c];
      var count := RevokeSessionsForPerson(person, None, now);
      r := Changed(count);
    }

    method ChangePassword(person: PersonId, oldPassword: string, newPassword: string, now: Time) returns (r: Reply)
      modifies this
      ensures Outcome(State(), r) == Apply(old(State()), Request.ChangePassword(person, oldPassword, newPassword), now)
    {
      var found := FindOfPerson(credentials, person);
      if found.None? {
        return Rejected(NoCredentials);
      }
      var c := credentials[found.value];
      if !Verifies(c, oldPassword) {
        return Rejected(PasswordIncorrect);
      }
      if oldPassword == newPassword {
        return Rejected(PasswordUnchanged);
      }
      c := c.(password := Some(newPassword));
      c := c.(mustChangePassword := false);
      credentials := credentials[found.value := c];
      var count := RevokeSessionsForPerson(person, None, now);
      r := Changed(count);
    }
  }
}
