/** Login, refresh-token rotation, revocation and account lockout
    (app/services/auth_flow.py, with the guard of app/services/auth_dependencies.py and the
    session endpoints of app/api/auth_flow.py).

    A session or credential is a row of a table and its id is its position there: rows are
    only ever appended.  `Apply` says what each request does; the class `AuthFlow` in
    AuthFlow.dfy carries the requests out step by step and is proved to do just that. */
module Auth {
  import opened Common

  type Time = int  // microseconds
  type Token = string
  type PersonId = nat

  const MINUTE: Time := 60 * 1000000
  const DAY: Time := 24 * 60 * MINUTE
  const MAX_FAILURES := 5
  const LOCK_TIME: Time := 15 * MINUTE

  /** A digest that no two tokens share. */
  datatype Hash = Sha256(token: Token)

  datatype Status = Active | Revoked | Expired

  datatype Session = Session(
    person: PersonId,
    status: Status,
    tokenHash: Hash,
    previousTokenHash: Option<Hash>,
    tokenRotatedAt: Option<Time>,
    createdAt: Time,
    lastSeenAt: Time,
    expiresAt: Time,
    revokedAt: Option<Time>)

  datatype Provider = Local | Sso

  datatype Credential = Credential(
    person: PersonId,
    provider: Provider,
    username: Option<string>,
    password: Option<string>,  // what the stored hash verifies
    mustChangePassword: bool,
    failedAttempts: nat,
    lockedUntil: Option<Time>,
    lastLoginAt: Option<Time>,
    isActive: bool)

  /** `chains[i]` is a history variable: every refresh token handed out for session `i`,
      oldest first. */
  datatype Db = Db(sessions: seq<Session>, credentials: seq<Credential>, chains: seq<seq<Token>>)

  datatype Error =
    | InvalidProvider | InvalidCredentials | AccountLocked | PasswordResetRequired
    | InvalidMfa | ReuseDetected | InvalidRefreshToken | RefreshTokenExpired
    | SessionNotFound | AlreadyRevoked | NoCredentials | PasswordIncorrect
    | PasswordUnchanged | Unauthorized

  datatype Reply =
    | Tokens(session: nat, refreshToken: Token)
    | MfaRequired(person: PersonId)
    | Authenticated
    | Changed(count: nat)
    | Rejected(error: Error)

  /** A request.  `minted` is what the random generator would return, `mfa` whether the
      person has a primary TOTP method, `verified` whether a TOTP code was right. */
  datatype Request =
    | Login(username: string, password: string, provider: Option<string>, mfa: bool, ttlDays: int, minted: Token)
    | MfaVerify(person: PersonId, verified: bool, ttlDays: int, minted: Token)
    | Refresh(token: Token, minted: Token)
    | Logout(token: Token)
    | RevokeSession(caller: PersonId, session: nat)
    | RevokeOthers(caller: PersonId, current: nat)
    | DeleteSession(session: nat)
    | ResetPassword(person: PersonId, newPassword: string)
    | ChangePassword(person: PersonId, oldPassword: string, newPassword: string)
    | Check(person: PersonId, session: nat)

  datatype Outcome = Outcome(db: Db, reply: Reply)

  // ---- Queries -------------------------------------------------------------------------

  predicate Live(s: Session) {
    s.status.Active? && s.revokedAt.None?
  }

  function FindCurrent(sessions: seq<Session>, h: Hash): Option<nat> {
    First(sessions, (s: Session) => s.tokenHash == h && Live(s))
  }

  function FindPrevious(sessions: seq<Session>, h: Hash): Option<nat> {
    First(sessions, (s: Session) => s.previousTokenHash == Some(h) && Live(s))
  }

  function FindUnrevoked(sessions: seq<Session>, h: Hash): Option<nat> {
    First(sessions, (s: Session) => s.tokenHash == h && s.revokedAt.None?)
  }

  function FindLogin(credentials: seq<Credential>, username: string, provider: Provider): Option<nat> {
    First(credentials, (c: Credential) => c.username == Some(username) && c.provider == provider && c.isActive)
  }

  function FindOfPerson(credentials: seq<Credential>, person: PersonId): Option<nat> {
    First(credentials, (c: Credential) => c.person == person && c.isActive)
  }

  function ResolveProvider(provider: Option<string>): Option<Provider> {
    match provider
    case None => Some(Local)
    case Some(name) =>
      if name == "" || name == "local" then Some(Local) else if name == "sso" then Some(Sso) else None
  }

  // ---- What a request does -------------------------------------------------------------

  function Revoke(s: Session, now: Time): Session {
    s.(status := Revoked, revokedAt := Some(now))
  }

  predicate InScope(s: Session, id: nat, person: PersonId, exclude: Option<nat>) {
    s.person == person && Live(s) && exclude != Some(id)
  }

  function RevokeAll(sessions: seq<Session>, person: PersonId, exclude: Option<nat>, now: Time): (r: seq<Session>)
    ensures |r| == |sessions|
  {
    seq(|sessions|, i requires 0 <= i < |sessions| =>
      if InScope(sessions[i], i, person, exclude) then Revoke(sessions[i], now) else sessions[i])
  }

  function CountInScope(sessions: seq<Session>, person: PersonId, exclude: Option<nat>): nat {
    if sessions == [] then 0
    else
      var last := |sessions| - 1;
      CountInScope(sessions[..last], person, exclude) + (if InScope(sessions[last], last, person, exclude) then 1 else 0)
  }

  function IssueTokens(db: Db, person: PersonId, ttlDays: int, minted: Token, now: Time): Outcome {
    var s := Session(person, Active, Sha256(minted), None, None, now, now, now + ttlDays * DAY, None);
    Outcome(db.(sessions := db.sessions + [s], chains := db.chains + [[minted]]), Tokens(|db.sessions|, minted))
  }

  function Fail(c: Credential, now: Time): Credential {
    var n := c.failedAttempts + 1;
    c.(failedAttempts := n, lockedUntil := if n >= MAX_FAILURES then Some(now + LOCK_TIME) else c.lockedUntil)
  }

  predicate Locked(c: Credential, now: Time) {
    c.lockedUntil.Some? && c.lockedUntil.value > now
  }

  predicate Verifies(c: Credential, password: string) {
    c.password == Some(password)
  }

  function ApplyLogin(db: Db, r: Request, now: Time): Outcome
    requires r.Login?
  {
    match ResolveProvider(r.provider)
    case None => Outcome(db, Rejected(InvalidProvider))
    case Some(provider) =>
      match FindLogin(db.credentials, r.username, provider)
      case None => Outcome(db, Rejected(InvalidCredentials))
      case Some(i) =>
        var c := db.credentials[i];
        if Locked(c, now) then Outcome(db, Rejected(AccountLocked))
        else if !Verifies(c, r.password) then
          Outcome(db.(credentials := db.credentials[i := Fail(c, now)]), Rejected(InvalidCredentials))
        else if c.mustChangePassword then Outcome(db, Rejected(PasswordResetRequired))
        else
          var cleared := c.(failedAttempts := 0, lockedUntil := None, lastLoginAt := Some(now));
          var db' := db.(credentials := db.credentials[i := cleared]);
          if r.mfa then Outcome(db', MfaRequired(c.person))
          else IssueTokens(db', c.person, r.ttlDays, r.minted, now)
  }

  /** Extends the history of session `i`, when it has one. */
  function Extend(chains: seq<seq<Token>>, i: nat, t: Token): seq<seq<Token>> {
    if i < |chains| then chains[i := chains[i] + [t]] else chains
  }

  function ApplyRefresh(db: Db, token: Token, minted: Token, now: Time): Outcome {
    match FindCurrent(db.sessions, Sha256(token))
    case None => (
      match FindPrevious(db.sessions, Sha256(token))
      case None => Outcome(db, Rejected(InvalidRefreshToken))
      case Some(i) =>
        Outcome(db.(sessions := db.sessions[i := Revoke(db.sessions[i], now)]), Rejected(ReuseDetected))
    )
    case Some(i) =>
      var s := db.sessions[i];
      if s.expiresAt <= now then
        Outcome(db.(sessions := db.sessions[i := s.(status := Expired)]), Rejected(RefreshTokenExpired))
      else
        var rotated := s.(previousTokenHash := Some(s.tokenHash), tokenHash := Sha256(minted),
                          tokenRotatedAt := Some(now), lastSeenAt := now);
        Outcome(db.(sessions := db.sessions[i := rotated], chains := Extend(db.chains, i, minted)), Tokens(i, minted))
  }

  function ApplyLogout(db: Db, token: Token, now: Time): Outcome {
    match FindUnrevoked(db.sessions, Sha256(token))
    case None => Outcome(db, Rejected(SessionNotFound))
    case Some(i) => Outcome(db.(sessions := db.sessions[i := Revoke(db.sessions[i], now)]), Changed(1))
  }

  /** The guard on every authenticated endpoint. */
  predicate Authenticates(db: Db, person: PersonId, session: nat, now: Time) {
    && session < |db.sessions|
    && db.sessions[session].person == person
    && Live(db.sessions[session])
    && db.sessions[session].expiresAt > now
  }

  function Apply(db: Db, r: Request, now: Time): Outcome {
    match r
    case Login(_, _, _, _, _, _) => ApplyLogin(db, r, now)
    case MfaVerify(person, verified, ttlDays, minted) =>
      if verified then IssueTokens(db, person, ttlDays, minted, now) else Outcome(db, Rejected(InvalidMfa))
    case Refresh(token, minted) => ApplyRefresh(db, token, minted, now)
    case Logout(token) => ApplyLogout(db, token, now)
    case RevokeSession(caller, i) =>
      if i >= |db.sessions| || db.sessions[i].person != caller then Outcome(db, Rejected(SessionNotFound))
      else if db.sessions[i].status.Revoked? then Outcome(db, Rejected(AlreadyRevoked))
      else Outcome(db.(sessions := db.sessions[i := Revoke(db.sessions[i], now)]), Changed(1))
    case RevokeOthers(caller, current) =>
      Outcome(db.(sessions := RevokeAll(db.sessions, caller, Some(current), now)),
              Changed(CountInScope(db.sessions, caller, Some(current))))
    case DeleteSession(i) =>
      if i >= |db.sessions| then Outcome(db, Rejected(SessionNotFound))
      else Outcome(db.(sessions := db.sessions[i := Revoke(db.sessions[i], now)]), Changed(1))
    case ResetPassword(person, newPassword) => (
      match FindOfPerson(db.credentials, person)
      case None => Outcome(db, Rejected(NoCredentials))
      case Some(i) =>
        var c := db.credentials[i].(password := Some(newPassword), mustChangePassword := false,
                                    failedAttempts := 0, lockedUntil := None);
        Outcome(db.(credentials := db.credentials[i := c], sessions := RevokeAll(db.sessions, person, None, now)),
                Changed(CountInScope(db.sessions, person, None)))
    )
    case ChangePassword(person, oldPassword, newPassword) => (
      match FindOfPerson(db.credentials, person)
      case None => Outcome(db, Rejected(NoCredentials))
      case Some(i) =>
        if !Verifies(db.credentials[i], oldPassword) then Outcome(db, Rejected(PasswordIncorrect))
        else if oldPassword == newPassword then Outcome(db, Rejected(PasswordUnchanged))
        else
          var c := db.credentials[i].(password := Some(newPassword), mustChangePassword := false);
          Outcome(db.(credentials := db.credentials[i := c], sessions := RevokeAll(db.sessions, person, None, now)),
                  Changed(CountInScope(db.sessions, person, None)))
    )
    case Check(person, i) =>
      Outcome(db, if Authenticates(db, person, i, now) then Authenticated else Rejected(Unauthorized))
  }

  // ---- Runs ----------------------------------------------------------------------------

  datatype Event = At(now: Time, request: Request)

  /** The tables after a run of requests. */
  function Run(db: Db, es: seq<Event>): Db {
    if es == [] then db else Step(Run(db, es[..|es| - 1]), es[|es| - 1]).db
  }

  function Step(db: Db, e: Event): Outcome {
    Apply(db, e.request, e.now)
  }

  /** The reply to request `k` of a run. */
  function ReplyAt(db: Db, es: seq<Event>, k: nat): Reply
    requires k < |es|
  {
    Step(Run(db, es[..k]), es[k]).reply
  }

  ghost predicate Issued(db: Db, t: Token) {
    exists i, a :: 0 <= i < |db.chains| && 0 <= a < |db.chains[i]| && db.chains[i][a] == t
  }

  ghost predicate Fresh(db: Db, r: Request) {
    match r
    case Login(_, _, _, _, _, minted) => !Issued(db, minted)
    case MfaVerify(_, _, _, minted) => !Issued(db, minted)
    case Refresh(_, minted) => !Issued(db, minted)
    case _ => true
  }

  /** The random generator never repeats a token. */
  ghost predicate FreshRun(db: Db, es: seq<Event>) {
    forall k | 0 <= k < |es| :: Fresh(Run(db, es[..k]), es[k].request)
  }

  // ---- The invariant -------------------------------------------------------------------

  /** A row remembers the last two tokens of its history, and is revoked exactly when it
      says when. */
  ghost predicate RowAgrees(s: Session, chain: seq<Token>) {
    && |chain| >= 1
    && s.tokenHash == Sha256(chain[|chain| - 1])
    && s.previousTokenHash == (if |chain| == 1 then None else Some(Sha256(chain[|chain| - 2])))
    && (s.status.Revoked? <==> s.revokedAt.Some?)
  }

  /** No token was handed out twice: current hashes differ from each other and from every
      spent one. */
  ghost predicate NoRepeats(chains: seq<seq<Token>>) {
    forall i, a, j, b | 0 <= i < |chains| && 0 <= a < |chains[i]| && 0 <= j < |chains| && 0 <= b < |chains[j]| ::
      chains[i][a] == chains[j][b] ==> i == j && a == b
  }

  ghost predicate Inv(db: Db) {
    && |db.chains| == |db.sessions|
    && (forall i | 0 <= i < |db.sessions| :: RowAgrees(db.sessions[i], db.chains[i]))
    && NoRepeats(db.chains)
  }

  // ---- The shape of a step ---------------------------------------------------------------

  /** What may happen to a row without touching its tokens: nothing, a live row expires, or
      any row is revoked. */
  ghost predicate RowAged(s: Session, s': Session) {
    || s' == s
    || (Live(s) && s' == s.(status := Expired))
    || (s'.revokedAt.Some? && s' == s.(status := Revoked, revokedAt := s'.revokedAt))
  }

  ghost predicate Aged(db: Db, db': Db) {
    && db'.chains == db.chains
    && |db'.sessions| == |db.sessions|
    && forall i | 0 <= i < |db.sessions| :: RowAged(db.sessions[i], db'.sessions[i])
  }

  ghost predicate Opened(db: Db, db': Db, minted: Token, now: Time) {
    && db'.chains == db.chains + [[minted]]
    && |db'.sessions| == |db.sessions| + 1
    && db'.sessions[..|db.sessions|] == db.sessions
    && var s := db'.sessions[|db.sessions|];
       s.tokenHash == Sha256(minted) && s.previousTokenHash.None? && Live(s) && s.createdAt == now
  }

  ghost predicate Rotated(db: Db, db': Db, token: Token, minted: Token, now: Time, i: nat) {
    && i < |db.sessions| == |db.chains|
    && db.sessions[i].tokenHash == Sha256(token) && Live(db.sessions[i]) && now < db.sessions[i].expiresAt
    && db'.chains == db.chains[i := db.chains[i] + [minted]]
    && db'.sessions == db.sessions[i := db.sessions[i].(previousTokenHash := Some(Sha256(token)),
                                       tokenHash := Sha256(minted), tokenRotatedAt := Some(now), lastSeenAt := now)]
  }

  /** Every request opens one session, rotates one session, or hands out no token at all. */
  lemma StepShape(db: Db, e: Event)
    requires |db.chains| == |db.sessions|
    ensures var out := Step(db, e);
            match e.request
            case Login(_, _, _, _, _, m) => if out.reply.Tokens? then Opened(db, out.db, m, e.now) && out.reply.session == |db.sessions| else Aged(db, out.db)
            case MfaVerify(_, _, _, m) => if out.reply.Tokens? then Opened(db, out.db, m, e.now) && out.reply.session == |db.sessions| else Aged(db, out.db)
            case Refresh(t, m) => if out.reply.Tokens? then Rotated(db, out.db, t, m, e.now, out.reply.session) else Aged(db, out.db)
            case _ => !out.reply.Tokens? && Aged(db, out.db)
  {
  }

  lemma AgedKeepsInv(db: Db, db': Db)
    requires Inv(db) && Aged(db, db')
    ensures Inv(db')
  {
    forall i | 0 <= i < |db'.sessions| ensures RowAgrees(db'.sessions[i], db'.chains[i]) {
      assert RowAgrees(db.sessions[i], db.chains[i]);
    }
  }

  lemma OpenedKeepsInv(db: Db, db': Db, minted: Token, now: Time)
    requires Inv(db) && Opened(db, db', minted, now) && !Issued(db, minted)
    ensures Inv(db')
  {
    forall i | 0 <= i < |db'.sessions| ensures RowAgrees(db'.sessions[i], db'.chains[i]) {
      if i < |db.sessions| {
        assert RowAgrees(db.sessions[i], db.chains[i]);
        assert db'.sessions[i] == db'.sessions[..|db.sessions|][i];
      }
    }
  }

  lemma RotatedKeepsInv(db: Db, db': Db, token: Token, minted: Token, now: Time, i: nat)
    requires Inv(db) && Rotated(db, db', token, minted, now, i) && !Issued(db, minted)
    ensures Inv(db')
  {
    assert RowAgrees(db.sessions[i], db.chains[i]);
    forall j | 0 <= j < |db'.sessions| ensures RowAgrees(db'.sessions[j], db'.chains[j]) {
      assert RowAgrees(db.sessions[j], db.chains[j]);
    }
  }

  lemma StepKeepsInv(db: Db, e: Event)
    requires Inv(db) && Fresh(db, e.request)
    ensures Inv(Step(db, e).db)
  {
    StepShape(db, e);
    var out := Step(db, e);
    if out.reply.Tokens? {
      match e.request
      case Login(_, _, _, _, _, m) => OpenedKeepsInv(db, out.db, m, e.now);
      case MfaVerify(_, _, _, m) => OpenedKeepsInv(db, out.db, m, e.now);
      case Refresh(t, m) => RotatedKeepsInv(db, out.db, t, m, e.now, out.reply.session);
      case _ =>
    } else {
      AgedKeepsInv(db, out.db);
    }
  }
}
