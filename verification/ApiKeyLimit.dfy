/** The fixed-window counter on API-key generation (app/services/auth.py). */
module ApiKeyLimit {
  import opened Common

  type Time = nat  // microseconds

  const SECOND: nat := 1000000

  datatype Hit = Hit(client: string, now: Time)

  /** The effective window and allowance: never below one. */
  function AtLeastOne(n: int): (r: nat)
    ensures r >= 1
  {
    if n < 1 then 1 else n
  }

  function Bucket(now: Time, window: nat): nat
    requires window >= 1
  {
    now / window
  }

  // ---- The specification: counting in the whole history ---------------------------------

  function HitsIn(log: seq<Hit>, client: string, bucket: nat, window: nat): nat
    requires window >= 1
  {
    Count(log, (h: Hit) => h.client == client && Bucket(h.now, window) == bucket)
  }

  predicate Admits(log: seq<Hit>, h: Hit, window: nat, max: nat)
    requires window >= 1
  {
    HitsIn(log, h.client, Bucket(h.now, window), window) < max
  }

  /** How many requests of `client` with times in `[from, to)` were admitted. */
  function AdmittedIn(log: seq<Hit>, client: string, from: int, to: int, window: nat, max: nat): nat
    requires window >= 1
  {
    if log == [] then 0
    else
      var init, h := log[..|log| - 1], log[|log| - 1];
      AdmittedIn(init, client, from, to, window, max)
      + (if h.client == client && from <= h.now < to && Admits(init, h, window, max) then 1 else 0)
  }

  // ---- The counters -----------------------------------------------------------------------

  datatype Counter = Counter(count: nat, expiresAt: Time)

  datatype Reply = Unavailable | Allowed | TooMany

  class ApiKeys {
    const window: nat
    const max: nat
    var counters: map<(string, nat), Counter>
    ghost var log: seq<Hit>

    /** Every counter holds the whole number of requests of its bucket, and lives at least
        until the bucket ends. */
    ghost predicate Valid()
      reads this
    {
      && window >= 1 && max >= 1
      && forall client: string, bucket: nat ::
           if (client, bucket) in counters then
             && counters[(client, bucket)].count == HitsIn(log, client, bucket, window)
             && counters[(client, bucket)].count >= 1
             && counters[(client, bucket)].expiresAt >= (bucket + 1) * window
           else HitsIn(log, client, bucket, window) == 0
    }

    constructor (windowSeconds: int, maxPerWindow: int)
      ensures Valid() && log == []
      ensures window == (if windowSeconds < 1 then 1 else windowSeconds) * 1000000
      ensures max == if maxPerWindow < 1 then 1 else maxPerWindow
    {
      window := AtLeastOne(windowSeconds) * SECOND;
      max := AtLeastOne(maxPerWindow);
      counters := map[];
      log := [];
    }

    method Generate(client: string, now: Time, redisUp: bool) returns (r: Reply)
      requires Valid()
      modifies this
      ensures Valid()
      ensures !redisUp ==> r == Unavailable && log == old(log)
      ensures redisUp ==> log == old(log) + [Hit(client, now)]
      ensures redisUp ==> r == if Admits(old(log), Hit(client, now), window, max) then Allowed else TooMany
    {
      if !redisUp {
        return Unavailable;
      }
      var bucket := now / window;
      var key := (client, bucket);
      BucketRange(now, window);
      // an expired counter is gone
      var before := if key in counters && counters[key].expiresAt > now then counters[key].count else 0;
      var count := before + 1;
      if count == 1 {
        counters := counters[key := Counter(count, now + window)];
      } else {
        counters := counters[key := counters[key].(count := count)];
      }
      log := log + [Hit(client, now)];
      forall c: string, b: nat ensures HitsIn(log, c, b, window) == HitsIn(old(log), c, b, window) + (if (c, b) == key then 1 else 0) {
        HitsOneMore(old(log), Hit(client, now), c, b, window);
      }
      r := if count > max then TooMany else Allowed;
    }
  }

  lemma HitsOneMore(log: seq<Hit>, h: Hit, client: string, bucket: nat, window: nat)
    requires window >= 1
    ensures HitsIn(log + [h], client, bucket, window) ==
            HitsIn(log, client, bucket, window) + (if h.client == client && Bucket(h.now, window) == bucket then 1 else 0)
  {
    assert (log + [h])[..|log|] == log;
  }

  lemma BucketRange(now: Time, window: nat)
    requires window >= 1
    ensures Bucket(now, window) * window <= now < (Bucket(now, window) + 1) * window
  {
  }

  lemma BucketIs(now: Time, window: nat, bucket: nat)
    requires window >= 1
    requires bucket * window <= now < (bucket + 1) * window
    ensures Bucket(now, window) == bucket
  {
    BucketRange(now, window);
    StartsAreOrdered(bucket, Bucket(now, window), window);
    StartsAreOrdered(Bucket(now, window), bucket, window);
  }

  lemma StartsAreOrdered(a: nat, b: nat, window: nat)
    ensures a < b ==> (a + 1) * window <= b * window
  {
    if a < b {
      assert b * window == (a + 1) * window + (b - a - 1) * window;
    }
  }

  // ---- What the limit guarantees ------------------------------------------------------------

  /** A bucket admits the first requests made in it, up to the allowance. */
  lemma {:induction false} AdmittedPerBucket(log: seq<Hit>, client: string, bucket: nat, window: nat, max: nat)
    requires window >= 1
    ensures var hits := HitsIn(log, client, bucket, window);
            AdmittedIn(log, client, bucket * window, (bucket + 1) * window, window, max) == (if hits < max then hits else max)
  {
    if log != [] {
      var n := |log| - 1;
      AdmittedPerBucket(log[..n], client, bucket, window, max);
      BucketRange(log[n].now, window);
      if bucket * window <= log[n].now < (bucket + 1) * window {
        BucketIs(log[n].now, window, bucket);
      }
    }
  }

  /** Counting over a longer stretch of time counts at least as much, and a stretch can be
      cut in two. */
  lemma {:induction false} StretchesAdd(log: seq<Hit>, client: string, from: int, mid: int, to: int, window: nat, max: nat)
    requires window >= 1 && from <= mid <= to
    ensures AdmittedIn(log, client, from, to, window, max)
         == AdmittedIn(log, client, from, mid, window, max) + AdmittedIn(log, client, mid, to, window, max)
  {
    if log != [] {
      StretchesAdd(log[..|log| - 1], client, from, mid, to, window, max);
    }
  }

  /** Any interval one window long, wherever it starts, admits at most twice the allowance. */
  lemma AdmittedPerInterval(log: seq<Hit>, client: string, from: nat, window: nat, max: nat)
    requires window >= 1
    ensures AdmittedIn(log, client, from, from + window, window, max) <= 2 * max
  {
    var b := Bucket(from, window);
    BucketRange(from, window);
    var start, mid, end := b * window, (b + 1) * window, (b + 2) * window;
    assert start <= from < mid <= from + window <= end;
    StretchesAdd(log, client, from, mid, from + window, window, max);
    StretchesAdd(log, client, start, from, mid, window, max);
    StretchesAdd(log, client, mid, from + window, end, window, max);
    AdmittedPerBucket(log, client, b, window, max);
    AdmittedPerBucket(log, client, b + 1, window, max);
  }

  /** `max` requests just before a bucket ends and `max` just after. */
  function Straddling(client: string, window: nat, max: nat): seq<Hit>
    requires window >= 1
  {
    seq(2 * max, k requires 0 <= k < 2 * max => Hit(client, if k < max then window - 1 else window))
  }

  lemma StraddlingBuckets(client: string, window: nat, max: nat, k: nat)
    requires window >= 2 && k < 2 * max
    ensures Bucket(Straddling(client, window, max)[k].now, window) == (if k < max then 0 else 1)
  {
    BucketIs(window - 1, window, 0);
    BucketIs(window, window, 1);
  }

  lemma {:induction false} StraddlingHits(client: string, window: nat, max: nat, n: nat)
    requires window >= 2 && n <= 2 * max
    ensures var log := Straddling(client, window, max)[..n];
            && HitsIn(log, client, 0, window) == (if n < max then n else max)
            && HitsIn(log, client, 1, window) == (if n < max then 0 else n - max)
  {
    if n > 0 {
      var log := Straddling(client, window, max);
      StraddlingHits(client, window, max, n - 1);
      StraddlingBuckets(client, window, max, n - 1);
      assert log[..n][..n - 1] == log[..n - 1];
    }
  }

  lemma StraddlingAdmits(client: string, window: nat, max: nat, n: nat)
    requires window >= 2 && n < 2 * max
    ensures var log := Straddling(client, window, max); Admits(log[..n], log[n], window, max)
  {
    StraddlingHits(client, window, max, n);
    StraddlingBuckets(client, window, max, n);
  }

  lemma {:induction false} StraddlingAdmitted(client: string, window: nat, max: nat, n: nat)
    requires window >= 2 && n <= 2 * max
    ensures AdmittedIn(Straddling(client, window, max)[..n], client, window - 1, 2 * window - 1, window, max) == n
  {
    if n > 0 {
      var log := Straddling(client, window, max);
      StraddlingAdmitted(client, window, max, n - 1);
      StraddlingAdmits(client, window, max, n - 1);
      assert log[..n][..n - 1] == log[..n - 1];
    }
  }

  /** Twice the allowance is reached: a full bucket's worth just before a bucket ends and
      another just after. */
  lemma TwiceIsReached(client: string, window: nat, max: nat)
    requires window >= 2
    ensures AdmittedIn(Straddling(client, window, max), client, window - 1, 2 * window - 1, window, max) == 2 * max
  {
    StraddlingAdmitted(client, window, max, 2 * max);
    assert Straddling(client, window, max)[..2 * max] == Straddling(client, window, max);
  }
}
