/** The sliding-window limiter on the login endpoints (app/middleware/rate_limit.py).

    The service keeps one Redis sorted set of timestamps per endpoint and client: it drops
    what left the window, counts, then adds the new request, and lets the whole set expire
    after a quiet window.  The partner of that structure is the full history of attempts. */
module RateLimit {
  import opened Common

  type Time = nat  // microseconds

  const SECOND: nat := 1000000

  datatype Endpoint = Login | PasswordReset | MfaVerify | Register

  datatype Key = Key(endpoint: Endpoint, client: string)

  datatype Attempt = Attempt(key: Key, now: Time)

  datatype Decision =
    | Unlimited                     // not a limited request
    | Admitted(remaining: nat)
    | TooMany

  function MaxRequests(e: Endpoint): nat {
    match e
    case Login => 10
    case PasswordReset => 5
    case MfaVerify => 10
    case Register => 5
  }

  function Window(e: Endpoint): nat {
    match e
    case Login => 60 * SECOND
    case PasswordReset => 300 * SECOND
    case MfaVerify => 60 * SECOND
    case Register => 300 * SECOND
  }

  function CleanPath(path: string): string {
    if "/api/v1" <= path then path[|"/api/v1"|..] else path
  }

  /** The limited endpoint a request is for, if any. */
  function EndpointOf(httpMethod: string, path: string): Option<Endpoint> {
    if httpMethod != "POST" then None
    else
      var clean := CleanPath(path);
      if clean == "/auth/login" then Some(Login)
      else if clean == "/auth/password-reset" then Some(PasswordReset)
      else if clean == "/auth/mfa/verify" then Some(MfaVerify)
      else if clean == "/auth/register" then Some(Register)
      else None
  }

  // ---- Which requests are limited ----------------------------------------------------------

  datatype HttpRequest = HttpRequest(verb: string, path: string, client: string, now: Time)

  function Route(e: Endpoint): string {
    match e
    case Login => "/auth/login"
    case PasswordReset => "/auth/password-reset"
    case MfaVerify => "/auth/mfa/verify"
    case Register => "/auth/register"
  }

  /** A POST to `route`, bare or behind the prefix of the API. */
  predicate Posts(r: HttpRequest, route: string) {
    r.verb == "POST" && (r.path == route || r.path == "/api/v1" + route)
  }

  lemma CleanVerdict(path: string, route: string)
    requires !("/api/v1" <= route)
    ensures CleanPath(path) == route <==> path == route || path == "/api/v1" + route
  {
    if "/api/v1" <= path {
      assert path == "/api/v1" + path[|"/api/v1"|..];
    }
    assert ("/api/v1" + route)[|"/api/v1"|..] == route;
  }

  lemma EndpointVerdict(r: HttpRequest, e: Endpoint)
    ensures EndpointOf(r.verb, r.path) == Some(e) <==> Posts(r, Route(e))
  {
    assert Route(e)[2] == 'u' && "/api/v1"[2] == 'p';
    CleanVerdict(r.path, Route(e));
  }

  /** What serving a request does to the history, and the decision about it. */
  ghost predicate Serves(before: seq<Attempt>, r: HttpRequest, after: seq<Attempt>, d: Decision) {
    && (forall e | Posts(r, Route(e)) ::
          var a := Attempt(Key(e, r.client), r.now); after == before + [a] && d == Decide(before, a))
    && ((forall e :: !Posts(r, Route(e))) ==> after == before && d == Unlimited)
  }

  // ---- The specification: a decision from the whole history -------------------------------

  /** The times at which `key` was attempted after `since`. */
  function Attempts(log: seq<Attempt>, key: Key, since: int): set<Time> {
    set k | 0 <= k < |log| && log[k].key == key && log[k].now > since :: log[k].now
  }

  function Decide(log: seq<Attempt>, a: Attempt): Decision {
    var n := |Attempts(log, a.key, a.now - Window(a.key.endpoint))|;
    if n >= MaxRequests(a.key.endpoint) then TooMany
    else Admitted(MaxRequests(a.key.endpoint) - n - 1)
  }

  /** The clock never runs backwards. */
  ghost predicate Ordered(log: seq<Attempt>) {
    forall i, j | 0 <= i < j < |log| :: log[i].now <= log[j].now
  }

  // ---- The sorted sets ---------------------------------------------------------------------

  datatype SortedSet = SortedSet(members: set<Time>, expiresAt: Time)

  class Limiter {
    var store: map<Key, SortedSet>
    ghost var log: seq<Attempt>

    ghost predicate Valid()
      reads this
    {
      Ordered(log) && StoreAgrees(log, store)
    }

    constructor ()
      ensures Valid() && log == []
    {
      store := map[];
      log := [];
    }

    method Dispatch(httpMethod: string, path: string, client: string, now: Time) returns (d: Decision)
      requires Valid()
      requires log != [] ==> log[|log| - 1].now <= now
      modifies this
      ensures Valid()
      ensures Serves(old(log), HttpRequest(httpMethod, path, client, now), log, d)
      ensures d == Unlimited ==> store == old(store)
    {
      forall e ensures EndpointOf(httpMethod, path) == Some(e) <==> Posts(HttpRequest(httpMethod, path, client, now), Route(e)) {
        EndpointVerdict(HttpRequest(httpMethod, path, client, now), e);
      }
      var endpoint := EndpointOf(httpMethod, path);
      if endpoint.None? {
        return Unlimited;
      }
      ghost var a := Attempt(Key(endpoint.value, client), now);
      DecideFromStore(log, store, a);
      AddKeepsStore(log, store, a);
      AddKeepsOrder(log, a);
      log := log + [a];
      var count := Pipeline(Key(endpoint.value, client), now);
      var max := MaxRequests(endpoint.value);
      d := if count >= max then TooMany else Admitted(max - count - 1);
    }

    /** The Redis pipeline: prune, count, add, set the expiry. */
    method Pipeline(key: Key, now: Time) returns (count: nat)
      modifies this`store
      ensures store == Touch(old(store), Attempt(key, now))
      ensures count == |Kept(old(store), Attempt(key, now))|
    {
      var window := Window(key.endpoint);
      // an expired set is gone
      var members := if key in store && store[key].expiresAt > now then store[key].members else {};
      members := Prune(members, now - window);
      assert members == Kept(store, Attempt(key, now));
      count := |members|;
      members := members + {now};
      store := store[key := SortedSet(members, now + window)];
    }
  }

  lemma AddKeepsOrder(log: seq<Attempt>, a: Attempt)
    requires Ordered(log)
    requires log != [] ==> log[|log| - 1].now <= a.now
    ensures Ordered(log + [a])
  {
  }

  /** A stored set expires one window after some moment since which its key was not
      attempted, and holds the attempts of the window before that moment. */
  ghost predicate KeyAgrees(log: seq<Attempt>, key: Key, z: SortedSet) {
    var last := z.expiresAt - Window(key.endpoint);
    && log != [] && last <= log[|log| - 1].now
    && (forall k | 0 <= k < |log| && log[k].key == key :: log[k].now <= last)
    && z.members == Attempts(log, key, last - Window(key.endpoint))
  }

  /** Exactly the keys ever attempted are stored, each in agreement with the history. */
  ghost predicate StoreAgrees(log: seq<Attempt>, store: map<Key, SortedSet>) {
    && (forall key | key in store :: KeyAgrees(log, key, store[key]))
    && (forall k | 0 <= k < |log| :: log[k].key in store)
  }

  lemma AttemptsOfLonger(log: seq<Attempt>, a: Attempt, key: Key, since: int)
    ensures Attempts(log + [a], key, since)
         == Attempts(log, key, since) + (if a.key == key && a.now > since then {a.now} else {})
  {
    var log' := log + [a];
    assert forall k | 0 <= k < |log| :: log'[k] == log[k];
    assert log'[|log|] == a;
  }

  /** ZREMRANGEBYSCORE from 0 to `upTo`. */
  function Prune(members: set<Time>, upTo: int): set<Time> {
    set m | m in members && !(m <= upTo)
  }

  /** The set a new attempt finds, once EXPIRE and the pruning have done their work. */
  function Kept(store: map<Key, SortedSet>, a: Attempt): set<Time> {
    Prune(if a.key in store && store[a.key].expiresAt > a.now then store[a.key].members else {},
          a.now - Window(a.key.endpoint))
  }

  /** It is the window of the whole history.  EXPIRE fires only on a window that has emptied,
      so it changes no decision. */
  lemma KeptIsWindow(log: seq<Attempt>, store: map<Key, SortedSet>, a: Attempt)
    requires Ordered(log) && StoreAgrees(log, store)
    requires log != [] ==> log[|log| - 1].now <= a.now
    ensures Kept(store, a) == Attempts(log, a.key, a.now - Window(a.key.endpoint))
  {
    var window := Attempts(log, a.key, a.now - Window(a.key.endpoint));
    if a.key in store {
      var z := store[a.key];
      assert KeyAgrees(log, a.key, z);
      forall t | t in window ensures t in Kept(store, a) {
        var k :| 0 <= k < |log| && log[k].key == a.key && log[k].now > a.now - Window(a.key.endpoint) && log[k].now == t;
      }
    } else {
      assert window == {};
    }
  }

  lemma DecideFromStore(log: seq<Attempt>, store: map<Key, SortedSet>, a: Attempt)
    requires Ordered(log) && StoreAgrees(log, store)
    requires log != [] ==> log[|log| - 1].now <= a.now
    ensures var count, max := |Kept(store, a)|, MaxRequests(a.key.endpoint);
            Decide(log, a) == if count >= max then TooMany else Admitted(max - count - 1)
  {
    KeptIsWindow(log, store, a);
  }

  /** The store after a new attempt. */
  function Touch(store: map<Key, SortedSet>, a: Attempt): map<Key, SortedSet> {
    store[a.key := SortedSet(Kept(store, a) + {a.now}, a.now + Window(a.key.endpoint))]
  }

  lemma AddKeepsStore(log: seq<Attempt>, store: map<Key, SortedSet>, a: Attempt)
    requires Ordered(log) && StoreAgrees(log, store)
    requires log != [] ==> log[|log| - 1].now <= a.now
    ensures StoreAgrees(log + [a], Touch(store, a))
  {
    KeptIsWindow(log, store, a);
    AttemptedKeyAgrees(log, a);
    forall key | key in store && key != a.key ensures KeyAgrees(log + [a], key, store[key]) {
      OtherKeyAgrees(log, a, key, store[key]);
    }
  }

  lemma AttemptedKeyAgrees(log: seq<Attempt>, a: Attempt)
    requires Ordered(log)
    requires log != [] ==> log[|log| - 1].now <= a.now
    ensures var w := Window(a.key.endpoint);
            KeyAgrees(log + [a], a.key, SortedSet(Attempts(log, a.key, a.now - w) + {a.now}, a.now + w))
  {
    AttemptsOfLonger(log, a, a.key, a.now - Window(a.key.endpoint));
  }

  lemma OtherKeyAgrees(log: seq<Attempt>, a: Attempt, key: Key, z: SortedSet)
    requires KeyAgrees(log, key, z) && key != a.key
    requires log[|log| - 1].now <= a.now
    ensures KeyAgrees(log + [a], key, z)
  {
    AttemptsOfLonger(log, a, key, z.expiresAt - Window(key.endpoint) - Window(key.endpoint));
  }

  // ---- What the limits guarantee -------------------------------------------------------------

  /** Attempt `k` of the history was let through. */
  predicate LetThrough(log: seq<Attempt>, key: Key, k: nat)
    requires k < |log|
  {
    log[k].key == key && Decide(log[..k], log[k]).Admitted?
  }

  /** The times in the interval of one window from `from` at which `key` was let through. */
  function LetThroughTimes(log: seq<Attempt>, key: Key, from: int): set<Time> {
    set k | 0 <= k < |log| && LetThrough(log, key, k) && InInterval(key, from, log[k].now) :: log[k].now
  }

  predicate InInterval(key: Key, from: int, now: Time) {
    from <= now < from + Window(key.endpoint)
  }

  lemma LetThroughOfLonger(log: seq<Attempt>, key: Key, from: int)
    requires log != []
    ensures var n := |log| - 1;
            LetThroughTimes(log, key, from)
            == LetThroughTimes(log[..n], key, from)
               + (if LetThrough(log, key, n) && InInterval(key, from, log[n].now) then {log[n].now} else {})
  {
    var n := |log| - 1;
    forall k | 0 <= k < n ensures log[..n][k] == log[k] && (LetThrough(log[..n], key, k) <==> LetThrough(log, key, k)) {
      assert log[..n][..k] == log[..k];
    }
  }

  /** However the attempts are spread, in any half-open interval one window long a key is let
      through at no more than the allowed number of different times. */
  lemma {:induction false} WindowBound(log: seq<Attempt>, key: Key, from: int)
    requires Ordered(log)
    ensures |LetThroughTimes(log, key, from)| <= MaxRequests(key.endpoint)
  {
    if log == [] {
      assert LetThroughTimes(log, key, from) == {};
    } else {
      var n := |log| - 1;
      WindowBound(log[..n], key, from);
      LetThroughOfLonger(log, key, from);
      if LetThrough(log, key, n) && InInterval(key, from, log[n].now) {
        EarlierAreCounted(log, key, from);
      }
    }
  }

  /** When the last attempt is let through, what was let through before it in the interval
      was among the attempts it was counted against. */
  lemma EarlierAreCounted(log: seq<Attempt>, key: Key, from: int)
    requires Ordered(log) && log != [] && LetThrough(log, key, |log| - 1) && InInterval(key, from, log[|log| - 1].now)
    ensures |LetThroughTimes(log[..|log| - 1], key, from)| < MaxRequests(key.endpoint)
  {
    var n := |log| - 1;
    var few, counted := LetThroughTimes(log[..n], key, from), Attempts(log[..n], key, log[n].now - Window(key.endpoint));
    assert few <= counted;
    SubsetSize(few, counted);
  }

  /** When no two attempts of the key carry the same timestamp, the bound is on requests. */
  lemma WindowBoundOnRequests(log: seq<Attempt>, key: Key, from: int)
    requires Ordered(log)
    requires forall i, j | 0 <= i < j < |log| && log[i].key == log[j].key == key :: log[i].now != log[j].now
    ensures |LetThroughRequests(log, key, from)| <= MaxRequests(key.endpoint)
  {
    WindowBound(log, key, from);
    var ks := LetThroughRequests(log, key, from);
    InjectionSize(ks, LetThroughTimes(log, key, from), k => TimeOf(log, k));
  }

  function LetThroughRequests(log: seq<Attempt>, key: Key, from: int): set<int> {
    set k | 0 <= k < |log| && LetThrough(log, key, k) && InInterval(key, from, log[k].now)
  }

  function TimeOf(log: seq<Attempt>, k: int): Time {
    if 0 <= k < |log| then log[k].now else 0
  }

  /** Attempts that share one timestamp collapse into one member of the sorted set: without
      the hypothesis above any number of them gets through. */
  lemma SameInstantAllLetThrough(n: nat, key: Key, now: Time, k: nat)
    requires k < n
    ensures LetThrough(seq(n, _ => Attempt(key, now)), key, k)
  {
    var log := seq(n, _ => Attempt(key, now));
    var attempts := Attempts(log[..k], key, now - Window(key.endpoint));
    assert attempts <= {now};
    SubsetSize(attempts, {now});
  }

  /** A key that was quiet for a full window is let through again, with its full allowance. */
  lemma QuietKeyLetThrough(log: seq<Attempt>, a: Attempt)
    requires forall k | 0 <= k < |log| && log[k].key == a.key :: log[k].now <= a.now - Window(a.key.endpoint)
    ensures Decide(log, a) == Admitted(MaxRequests(a.key.endpoint) - 1)
  {
    assert Attempts(log, a.key, a.now - Window(a.key.endpoint)) == {};
  }

  /** A refused attempt still counts: a client that makes more than the allowed number of
      attempts in every window stays refused, without end. */
  lemma HammeringStaysRefused(log: seq<Attempt>, a: Attempt, ts: set<Time>)
    requires |ts| >= MaxRequests(a.key.endpoint)
    requires forall t | t in ts :: t > a.now - Window(a.key.endpoint) && Attempt(a.key, t) in log
    ensures Decide(log, a) == TooMany
  {
    var counted := Attempts(log, a.key, a.now - Window(a.key.endpoint));
    assert ts <= counted;
    SubsetSize(ts, counted);
  }
}
