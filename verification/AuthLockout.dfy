/** How many passwords an attacker can try: the lockout of app/services/auth_flow.py over
    whole runs of requests of every kind. */
module AuthLockout {
  import opened Common
  import opened Auth
  import opened AuthSafety

  /** The request makes the service compare a wrong password against credential `c`. */
  ghost predicate WrongPassword(db: Db, e: Event, c: nat) {
    && e.request.Login?
    && ResolveProvider(e.request.provider).Some?
    && FindLogin(db.credentials, e.request.username, ResolveProvider(e.request.provider).value) == Some(c)
    && !Locked(db.credentials[c], e.now)
    && !Verifies(db.credentials[c], e.request.password)
  }

  /** The request resets the failure count of `c`: a login with the right password, or a
      password reset. */
  ghost predicate Clears(db: Db, e: Event, c: nat) {
    c < |db.credentials| &&
    match e.request
    case Login(username, password, provider, _, _, _) =>
      && ResolveProvider(provider).Some?
      && FindLogin(db.credentials, username, ResolveProvider(provider).value) == Some(c)
      && !Locked(db.credentials[c], e.now)
      && Verifies(db.credentials[c], password)
      && !db.credentials[c].mustChangePassword
    case ResetPassword(person, _) => FindOfPerson(db.credentials, person) == Some(c)
    case _ => false
  }

  /** The times at which wrong passwords were compared against `c`. */
  ghost function WrongTimes(db: Db, es: seq<Event>, c: nat): seq<Time> {
    if es == [] then []
    else
      var n := |es| - 1;
      WrongTimes(db, es[..n], c) + (if WrongPassword(Run(db, es[..n]), es[n], c) then [es[n].now] else [])
  }

  ghost predicate ClearsAt(db: Db, es: seq<Event>, c: nat, k: nat)
    requires k < |es|
  {
    Clears(Run(db, es[..k]), es[k], c)
  }

  ghost predicate NeverCleared(db: Db, es: seq<Event>, c: nat) {
    forall k: nat | k < |es| :: !ClearsAt(db, es, c, k)
  }

  /** Only a wrong password moves the counter and the lock of a credential that is not
      cleared: the lock running out resets nothing. */
  lemma StepCounts(db: Db, e: Event, c: nat)
    requires c < |db.credentials| && !Clears(db, e, c)
    ensures |Step(db, e).db.credentials| == |db.credentials|
    ensures var before, after := db.credentials[c], Step(db, e).db.credentials[c];
            if WrongPassword(db, e, c) then after == Fail(before, e.now)
            else after.failedAttempts == before.failedAttempts && after.lockedUntil == before.lockedUntil
  {
  }

  /** From the fifth failure on, later failures are a full lock time apart. */
  ghost predicate Spaced(start: nat, ts: seq<Time>) {
    forall a, b | 0 <= a <= b < |ts| && start + a + 1 >= MAX_FAILURES :: ts[b] - ts[a] >= (b - a) * LOCK_TIME
  }

  /** What the credential remembers of the failures at times `ts`. */
  ghost predicate Tracks(start: nat, ts: seq<Time>, c: Credential) {
    && c.failedAttempts == start + |ts|
    && (|ts| > 0 && start + |ts| >= MAX_FAILURES ==> c.lockedUntil == Some(ts[|ts| - 1] + LOCK_TIME))
  }

  lemma FailureKeepsSpacing(start: nat, ts: seq<Time>, c: Credential, now: Time)
    requires Spaced(start, ts) && Tracks(start, ts, c) && !Locked(c, now)
    ensures Spaced(start, ts + [now]) && Tracks(start, ts + [now], Fail(c, now))
  {
    var ts' := ts + [now];
    forall a, b | 0 <= a <= b < |ts'| && start + a + 1 >= MAX_FAILURES
      ensures ts'[b] - ts'[a] >= (b - a) * LOCK_TIME
    {
      if a < b == |ts| {
        assert ts[b - 1] - ts[a] >= (b - 1 - a) * LOCK_TIME;
      }
    }
  }

  /** Every failure from the fifth on locks again, so each later comparison has waited for
      the one before it. */
  lemma {:induction false} FailuresAreSpaced(db: Db, es: seq<Event>, c: nat)
    requires c < |db.credentials| && NeverCleared(db, es, c)
    ensures c < |Run(db, es).credentials|
    ensures Spaced(db.credentials[c].failedAttempts, WrongTimes(db, es, c))
    ensures Tracks(db.credentials[c].failedAttempts, WrongTimes(db, es, c), Run(db, es).credentials[c])
  {
    if es != [] {
      var n := |es| - 1;
      var init, mid := es[..n], Run(db, es[..n]);
      ClearedPrefix(db, es, c, n);
      FailuresAreSpaced(db, init, c);
      assert !ClearsAt(db, es, c, n);
      StepCounts(mid, es[n], c);
      if WrongPassword(mid, es[n], c) {
        FailureKeepsSpacing(db.credentials[c].failedAttempts, WrongTimes(db, init, c), mid.credentials[c], es[n].now);
      }
    }
  }

  lemma ClearedPrefix(db: Db, es: seq<Event>, c: nat, n: nat)
    requires NeverCleared(db, es, c) && n <= |es|
    ensures NeverCleared(db, es[..n], c)
  {
    forall k: nat | k < n ensures !ClearsAt(db, es[..n], c, k) {
      assert es[..n][..k] == es[..k];
      assert !ClearsAt(db, es, c, k);
    }
  }

  /** The lockout bound.  Between two clearings of a credential, however many requests are
      made, the wrong passwords compared number at most five plus one for each full lock time
      that passed since the fifth. */
  lemma LockoutBound(db: Db, es: seq<Event>, c: nat)
    requires c < |db.credentials| && db.credentials[c].failedAttempts == 0
    requires NeverCleared(db, es, c)
    requires |WrongTimes(db, es, c)| >= 5
    ensures var ts := WrongTimes(db, es, c);
            |ts| <= 5 + (ts[|ts| - 1] - ts[4]) / (15 * 60 * 1000000)
  {
    SpacedFromZero(db, es, c);
    SpacingBounds(WrongTimes(db, es, c));
  }

  lemma SpacedFromZero(db: Db, es: seq<Event>, c: nat)
    requires c < |db.credentials| && db.credentials[c].failedAttempts == 0
    requires NeverCleared(db, es, c)
    ensures Spaced(0, WrongTimes(db, es, c))
  {
    FailuresAreSpaced(db, es, c);
  }

  lemma SpacingBounds(ts: seq<Time>)
    requires Spaced(0, ts) && |ts| >= MAX_FAILURES
    ensures |ts| <= MAX_FAILURES + (ts[|ts| - 1] - ts[MAX_FAILURES - 1]) / LOCK_TIME
  {
    var a, b := MAX_FAILURES - 1, |ts| - 1;
    assert ts[b] - ts[a] >= (b - a) * LOCK_TIME;
  }

  ghost predicate TriesCredential(db: Db, e: Event, c: nat) {
    && e.request.Login?
    && ResolveProvider(e.request.provider).Some?
    && FindLogin(db.credentials, e.request.username, ResolveProvider(e.request.provider).value) == Some(c)
  }

  ghost predicate NeverReset(db: Db, es: seq<Event>, c: nat) {
    forall k | 0 <= k < |es| && es[k].request.ResetPassword? ::
      FindOfPerson(Run(db, es[..k]).credentials, es[k].request.person) != Some(c)
  }

  /** Until a lock runs out every login to the credential is refused, even with the right
      password, and no such attempt prolongs the lock. */
  lemma {:induction false} LockHolds(db: Db, es: seq<Event>, c: nat, until: Time)
    requires c < |db.credentials| && db.credentials[c].lockedUntil == Some(until)
    requires NeverReset(db, es, c)
    requires forall k | 0 <= k < |es| :: es[k].now < until
    ensures c < |Run(db, es).credentials| && Run(db, es).credentials[c].lockedUntil == Some(until)
    ensures forall k | 0 <= k < |es| && TriesCredential(Run(db, es[..k]), es[k], c) ::
              ReplyAt(db, es, k) == Rejected(AccountLocked)
  {
    if es != [] {
      var n := |es| - 1;
      var init, mid := es[..n], Run(db, es[..n]);
      ResetPrefix(db, es, c, n);
      LockHolds(db, init, c, until);
      LockedStep(mid, es[n], c, until);
      forall k | 0 <= k < |es| && TriesCredential(Run(db, es[..k]), es[k], c)
        ensures ReplyAt(db, es, k) == Rejected(AccountLocked)
      {
        if k < n {
          assert init[..k] == es[..k];
          assert ReplyAt(db, init, k) == Rejected(AccountLocked);
        }
      }
    }
  }

  lemma ResetPrefix(db: Db, es: seq<Event>, c: nat, n: nat)
    requires NeverReset(db, es, c) && n <= |es|
    ensures NeverReset(db, es[..n], c)
  {
    forall k | 0 <= k < n && es[..n][k].request.ResetPassword?
      ensures FindOfPerson(Run(db, es[..n][..k]).credentials, es[..n][k].request.person) != Some(c)
    {
      assert es[..n][..k] == es[..k];
    }
  }

  lemma LockedStep(db: Db, e: Event, c: nat, until: Time)
    requires c < |db.credentials| && db.credentials[c].lockedUntil == Some(until) && e.now < until
    requires e.request.ResetPassword? ==> FindOfPerson(db.credentials, e.request.person) != Some(c)
    ensures c < |Step(db, e).db.credentials| && Step(db, e).db.credentials[c].lockedUntil == Some(until)
    ensures TriesCredential(db, e, c) ==> Step(db, e).reply == Rejected(AccountLocked)
  {
  }
}
