/** The limiter over whole runs of HTTP requests, with the routes and numbers of the source. */
module RateLimitRoutes {
  import opened Common
  import opened RateLimit

  /** `allowance` requests in `seconds` seconds. */
  predicate Allows(route: string, allowance: nat, seconds: nat) {
    || (route == "/auth/login" && allowance == 10 && seconds == 60)
    || (route == "/auth/password-reset" && allowance == 5 && seconds == 300)
    || (route == "/auth/mfa/verify" && allowance == 10 && seconds == 60)
    || (route == "/auth/register" && allowance == 5 && seconds == 300)
  }

  predicate IsLimited(r: HttpRequest) {
    Posts(r, "/auth/login") || Posts(r, "/auth/password-reset") || Posts(r, "/auth/mfa/verify") || Posts(r, "/auth/register")
  }

  function TableOfLimits(route: string, allowance: nat, seconds: nat): (e: Endpoint)
    requires Allows(route, allowance, seconds)
    ensures route == Route(e) && allowance == MaxRequests(e) && seconds * 1000000 == Window(e)
  {
    if route == "/auth/login" then Login else if route == "/auth/password-reset" then PasswordReset
    else if route == "/auth/mfa/verify" then MfaVerify else Register
  }

  /** Requests served one after another: what the history becomes and what is decided. */
  ghost predicate Served(rs: seq<HttpRequest>, logs: seq<seq<Attempt>>, ds: seq<Decision>) {
    && |logs| == |rs| + 1 && |ds| == |rs| && logs[0] == []
    && (forall i, j | 0 <= i < j < |rs| :: rs[i].now <= rs[j].now)
    && (forall k | 0 <= k < |rs| :: Serves(logs[k], rs[k], logs[k + 1], ds[k]))
  }

  lemma LimitedByEndpoint(r: HttpRequest)
    ensures IsLimited(r) <==> exists e :: Posts(r, Route(e))
  {
    assert Posts(r, Route(Login)) || Posts(r, Route(PasswordReset)) || Posts(r, Route(MfaVerify)) || Posts(r, Route(Register)) <==> IsLimited(r);
  }

  /** A request goes unlimited exactly when it is not a POST to one of the four routes. */
  lemma LimitedExactly(rs: seq<HttpRequest>, logs: seq<seq<Attempt>>, ds: seq<Decision>, k: nat)
    requires Served(rs, logs, ds) && k < |rs|
    ensures ds[k] == Unlimited <==> !IsLimited(rs[k])
  {
    assert Serves(logs[k], rs[k], logs[k + 1], ds[k]);
    LimitedByEndpoint(rs[k]);
  }

  /** The times, after `since`, of the first `n` requests a client posted to a route. */
  function Posted(rs: seq<HttpRequest>, n: nat, route: string, client: string, since: int): set<Time>
    requires n <= |rs|
  {
    set j | 0 <= j < n && Posts(rs[j], route) && rs[j].client == client && rs[j].now > since :: rs[j].now
  }

  lemma OnlyEndpoint(r: HttpRequest, e: Endpoint, e': Endpoint)
    requires Posts(r, Route(e)) && Posts(r, Route(e'))
    ensures e == e'
  {
    EndpointVerdict(r, e);
    EndpointVerdict(r, e');
  }

  lemma {:induction false} HistoryIsPosted(rs: seq<HttpRequest>, logs: seq<seq<Attempt>>, ds: seq<Decision>, n: nat, e: Endpoint, client: string, since: int)
    requires Served(rs, logs, ds) && n <= |rs|
    ensures Attempts(logs[n], Key(e, client), since) == Posted(rs, n, Route(e), client, since)
  {
    if n > 0 {
      var r := rs[n - 1];
      HistoryIsPosted(rs, logs, ds, n - 1, e, client, since);
      assert Serves(logs[n - 1], r, logs[n], ds[n - 1]);
      assert Posted(rs, n, Route(e), client, since)
          == Posted(rs, n - 1, Route(e), client, since) + (if Posts(r, Route(e)) && r.client == client && r.now > since then {r.now} else {});
      if e' :| Posts(r, Route(e')) {
        AttemptsOfLonger(logs[n - 1], Attempt(Key(e', r.client), r.now), Key(e, client), since);
        if Posts(r, Route(e)) {
          OnlyEndpoint(r, e, e');
        }
      }
    }
  }

  /** The answer to any limited request of a run.  Earlier posts of the client to the route
      count under both spellings of the path and whatever their own answers were; those of
      other clients and other routes do not count. */
  lemma AnswerVerdict(rs: seq<HttpRequest>, logs: seq<seq<Attempt>>, ds: seq<Decision>, k: nat, route: string, allowance: nat, seconds: nat)
    requires Served(rs, logs, ds) && k < |rs|
    requires Allows(route, allowance, seconds) && Posts(rs[k], route)
    ensures var earlier := |Posted(rs, k, route, rs[k].client, rs[k].now - seconds * 1000000)|;
            ds[k] == if earlier < allowance then Admitted(allowance - 1 - earlier) else TooMany
  {
    var e := TableOfLimits(route, allowance, seconds);
    assert Serves(logs[k], rs[k], logs[k + 1], ds[k]);
    HistoryIsPosted(rs, logs, ds, k, e, rs[k].client, rs[k].now - seconds * 1000000);
  }

  predicate LetIn(r: HttpRequest, d: Decision, route: string, client: string, from: int, seconds: nat) {
    Posts(r, route) && r.client == client && d.Admitted? && from <= r.now < from + seconds * 1000000
  }

  /** The times of the first `n` requests at which a client was let through to a route in the
      `seconds` seconds from `from`. */
  function LetInTimes(rs: seq<HttpRequest>, ds: seq<Decision>, n: nat, route: string, client: string, from: int, seconds: nat): set<Time>
    requires n <= |rs| == |ds|
  {
    set k | 0 <= k < n && LetIn(rs[k], ds[k], route, client, from, seconds) :: rs[k].now
  }

  lemma LetInOneMore(rs: seq<HttpRequest>, ds: seq<Decision>, n: nat, route: string, client: string, from: int, seconds: nat)
    requires n < |rs| == |ds|
    ensures LetInTimes(rs, ds, n + 1, route, client, from, seconds)
         == LetInTimes(rs, ds, n, route, client, from, seconds)
            + (if LetIn(rs[n], ds[n], route, client, from, seconds) then {rs[n].now} else {})
  {
  }

  /** What was let in before a request is among the posts it is counted against. */
  lemma LetInIsPosted(rs: seq<HttpRequest>, logs: seq<seq<Attempt>>, ds: seq<Decision>, n: nat, route: string, client: string, from: int, seconds: nat)
    requires Served(rs, logs, ds) && n < |rs|
    requires LetIn(rs[n], ds[n], route, client, from, seconds)
    ensures LetInTimes(rs, ds, n, route, client, from, seconds) <= Posted(rs, n, route, client, rs[n].now - seconds * 1000000)
  {
  }

  lemma RoomWhenLetIn(rs: seq<HttpRequest>, logs: seq<seq<Attempt>>, ds: seq<Decision>, n: nat,
                      route: string, client: string, from: int, allowance: nat, seconds: nat)
    requires Served(rs, logs, ds) && n < |rs|
    requires Allows(route, allowance, seconds)
    requires LetIn(rs[n], ds[n], route, client, from, seconds)
    ensures |LetInTimes(rs, ds, n, route, client, from, seconds)| < allowance
  {
    AnswerVerdict(rs, logs, ds, n, route, allowance, seconds);
    LetInIsPosted(rs, logs, ds, n, route, client, from, seconds);
    SubsetSize(LetInTimes(rs, ds, n, route, client, from, seconds), Posted(rs, n, route, client, rs[n].now - seconds * 1000000));
  }

  ghost predicate RoomEveryTime(rs: seq<HttpRequest>, ds: seq<Decision>, route: string, client: string, from: int, allowance: nat, seconds: nat)
    requires |rs| == |ds|
  {
    forall n: nat | n < |rs| && LetIn(rs[n], ds[n], route, client, from, seconds) ::
      |LetInTimes(rs, ds, n, route, client, from, seconds)| < allowance
  }

  lemma {:induction false} RoomBounds(rs: seq<HttpRequest>, ds: seq<Decision>, n: nat, route: string, client: string,
                                      from: int, allowance: nat, seconds: nat)
    requires n <= |rs| == |ds| && RoomEveryTime(rs, ds, route, client, from, allowance, seconds)
    ensures |LetInTimes(rs, ds, n, route, client, from, seconds)| <= allowance
  {
    if n > 0 {
      RoomBounds(rs, ds, n - 1, route, client, from, allowance, seconds);
      LetInOneMore(rs, ds, n - 1, route, client, from, seconds);
    }
  }

  /** The bound on runs: a client reaches the login or the second factor at no more than 10
      times in 60 seconds, the password reset or the registration at no more than 5 times in
      300 seconds, however the requests are spelled and spread. */
  lemma RunsAreBounded(rs: seq<HttpRequest>, logs: seq<seq<Attempt>>, ds: seq<Decision>,
                       route: string, client: string, from: int, allowance: nat, seconds: nat)
    requires Served(rs, logs, ds)
    requires Allows(route, allowance, seconds)
    ensures |LetInTimes(rs, ds, |rs|, route, client, from, seconds)| <= allowance
  {
    forall n: nat | n < |rs| && LetIn(rs[n], ds[n], route, client, from, seconds)
      ensures |LetInTimes(rs, ds, n, route, client, from, seconds)| < allowance
    {
      RoomWhenLetIn(rs, logs, ds, n, route, client, from, allowance, seconds);
    }
    RoomBounds(rs, ds, |rs|, route, client, from, allowance, seconds);
  }
}
