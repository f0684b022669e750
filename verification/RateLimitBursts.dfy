/** How far the sliding window's allowance is exceeded when attempts share a timestamp: a burst at one
    instant is one member of the sorted set, so each instant but the last costs one of the allowance
    however many requests it lets through. */
module RateLimitBursts {
  import opened Common
  import opened RateLimit

  /** The attempts of `key` at one instant, by their place in the history. */
  function AttemptsAt(log: seq<Attempt>, key: Key, t: Time): set<int> {
    set k | 0 <= k < |log| && log[k].key == key && log[k].now == t
  }

  ghost predicate AtMostAtOnce(log: seq<Attempt>, key: Key, m: nat) {
    forall t: Time :: |AttemptsAt(log, key, t)| <= m
  }

  lemma PrefixAtMostAtOnce(log: seq<Attempt>, key: Key, m: nat, n: nat)
    requires AtMostAtOnce(log, key, m) && n <= |log|
    ensures AtMostAtOnce(log[..n], key, m)
  {
    forall t: Time ensures |AttemptsAt(log[..n], key, t)| <= m {
      assert AttemptsAt(log[..n], key, t) <= AttemptsAt(log, key, t);
      SubsetSize(AttemptsAt(log[..n], key, t), AttemptsAt(log, key, t));
    }
  }

  /** Each time at which the key was let through stands for at most `m` requests. */
  lemma RequestsPerTime(log: seq<Attempt>, key: Key, from: int, m: nat)
    requires AtMostAtOnce(log, key, m)
    ensures |LetThroughRequests(log, key, from)| <= m * |LetThroughTimes(log, key, from)|
  {
    var ks, ts := LetThroughRequests(log, key, from), LetThroughTimes(log, key, from);
    var time := (k: int) => TimeOf(log, k);
    forall t | t in ts ensures |Fibre(ks, time, t)| <= m {
      assert Fibre(ks, time, t) <= AttemptsAt(log, key, t);
      SubsetSize(Fibre(ks, time, t), AttemptsAt(log, key, t));
    }
    FibreSize(ks, ts, time, m);
  }

  lemma RequestsOfLonger(log: seq<Attempt>, key: Key, from: int)
    requires log != []
    ensures var n := |log| - 1;
            LetThroughRequests(log, key, from)
            == LetThroughRequests(log[..n], key, from)
               + (if LetThrough(log, key, n) && InInterval(key, from, log[n].now) then {n} else {})
  {
    var n := |log| - 1;
    forall k | 0 <= k < n ensures log[..n][k] == log[k] && (LetThrough(log[..n], key, k) <==> LetThrough(log, key, k)) {
      assert log[..n][..k] == log[..k];
    }
  }

  /** The most a window can let through when no instant carries more than `m` attempts. */
  function BurstBound(key: Key, m: nat): nat {
    (MaxRequests(key.endpoint) - 1) * m + 1
  }

  lemma Grows(m: nat, a: nat, b: nat)
    ensures a <= b ==> m * a <= m * b
  {
    if a <= b {
      assert m * b == m * a + m * (b - a);
    }
  }

  /** An attempt let through came when fewer times than the allowance had been. */
  lemma LastLetThrough(log: seq<Attempt>, key: Key, from: int, m: nat)
    requires Ordered(log) && log != [] && AtMostAtOnce(log, key, m)
    requires LetThrough(log, key, |log| - 1) && InInterval(key, from, log[|log| - 1].now)
    ensures |LetThroughRequests(log[..|log| - 1], key, from)| < BurstBound(key, m)
  {
    var before := log[..|log| - 1];
    EarlierAreCounted(log, key, from);
    PrefixAtMostAtOnce(log, key, m, |log| - 1);
    RequestsPerTime(before, key, from, m);
    Grows(m, |LetThroughTimes(before, key, from)|, MaxRequests(key.endpoint) - 1);
  }

  /** The time that fills the allowance admits one request only, so at most one instant fewer than the
      allowance counts in full. */
  lemma {:induction false} BurstsAreBounded(log: seq<Attempt>, key: Key, from: int, m: nat)
    requires Ordered(log) && AtMostAtOnce(log, key, m)
    ensures |LetThroughRequests(log, key, from)| <= BurstBound(key, m)
  {
    if log == [] {
      assert LetThroughRequests(log, key, from) == {};
    } else {
      var n := |log| - 1;
      RequestsOfLonger(log, key, from);
      if LetThrough(log, key, n) && InInterval(key, from, log[n].now) {
        LastLetThrough(log, key, from, m);
      } else {
        PrefixAtMostAtOnce(log, key, m, n);
        BurstsAreBounded(log[..n], key, from, m);
      }
    }
  }

  // ---- The bound is reached -----------------------------------------------------------------------

  /** `m` attempts at each instant, one instant after the other. */
  function Bursts(key: Key, m: nat, n: nat): seq<Attempt>
    requires m >= 1
  {
    seq(n, k requires 0 <= k < n => Attempt(key, k / m))
  }

  lemma Quotient(k: nat, m: nat)
    requires m >= 1
    ensures k / m * m <= k < k / m * m + m
  {
  }

  lemma QuotientsOrdered(j: nat, k: nat, m: nat)
    requires m >= 1 && j <= k
    ensures j / m <= k / m
  {
    Quotient(j, m);
    Quotient(k, m);
    Grows(m, k / m + 1, j / m);
  }

  lemma QuotientBelow(k: nat, m: nat, q: nat)
    requires m >= 1 && k < q * m
    ensures k / m < q
  {
    Quotient(k, m);
    Grows(m, q, k / m);
  }

  function UpTo(n: nat): (s: set<nat>)
    ensures |s| == n && forall i: nat :: i in s <==> i < n
  {
    if n == 0 then {} else UpTo(n - 1) + {n - 1}
  }

  /** Whatever came before attempt `k` came at fewer instants than the allowance. */
  lemma BurstIsLetThrough(key: Key, m: nat, k: nat)
    requires m >= 1 && k < BurstBound(key, m)
    ensures LetThrough(Bursts(key, m, BurstBound(key, m)), key, k)
  {
    var log := Bursts(key, m, BurstBound(key, m));
    var max := MaxRequests(key.endpoint);
    var counted := Attempts(log[..k], key, log[k].now - Window(key.endpoint));
    forall t | t in counted ensures t in UpTo(max - 1) {
      var j :| 0 <= j < k && log[..k][j].now == t;
      QuotientBelow(j, m, max - 1);
    }
    SubsetSize(counted, UpTo(max - 1));
  }

  lemma BurstsAreOrdered(key: Key, m: nat, n: nat)
    requires m >= 1
    ensures Ordered(Bursts(key, m, n))
  {
    forall i, j | 0 <= i < j < n ensures Bursts(key, m, n)[i].now <= Bursts(key, m, n)[j].now {
      QuotientsOrdered(i, j, m);
    }
  }

  lemma BurstsAtOnce(key: Key, m: nat, n: nat)
    requires m >= 1
    ensures AtMostAtOnce(Bursts(key, m, n), key, m)
  {
    forall t: Time ensures |AttemptsAt(Bursts(key, m, n), key, t)| <= m {
      var at := AttemptsAt(Bursts(key, m, n), key, t);
      forall k | k in at ensures t * m <= k < t * m + m {
        Quotient(k, m);
      }
      InjectionSize(at, UpTo(m), k => if k >= t * m then k - t * m else 0);
    }
  }

  lemma BoundIsReached(key: Key, m: nat)
    requires m >= 1
    ensures var log := Bursts(key, m, BurstBound(key, m));
            && Ordered(log) && AtMostAtOnce(log, key, m)
            && |LetThroughRequests(log, key, 0)| == BurstBound(key, m)
  {
    var n := BurstBound(key, m);
    var log := Bursts(key, m, n);
    BurstsAreOrdered(key, m, n);
    BurstsAtOnce(key, m, n);
    forall k: nat | k < n ensures k in LetThroughRequests(log, key, 0) {
      BurstIsLetThrough(key, m, k);
      LastBurstIsEarly(key, m, k);
    }
    InjectionSize(UpTo(n), LetThroughRequests(log, key, 0), (k: nat) => k as int);
    BurstsAreBounded(log, key, 0, m);
  }

  lemma LastBurstIsEarly(key: Key, m: nat, k: nat)
    requires m >= 1 && k < BurstBound(key, m)
    ensures k / m < Window(key.endpoint)
  {
    assert MaxRequests(key.endpoint) * m == (MaxRequests(key.endpoint) - 1) * m + m;
    QuotientBelow(k, m, MaxRequests(key.endpoint));
  }

  // ---- Exactly when the allowance is the bound ------------------------------------------------------

  /** However attempts come, no more than `m` of them at once, no window lets more through than allowed. */
  ghost predicate AllowanceHolds(key: Key, m: nat) {
    forall log, from: int | Ordered(log) && AtMostAtOnce(log, key, m) ::
      |LetThroughRequests(log, key, from)| <= MaxRequests(key.endpoint)
  }

  /** The allowance bounds the requests of every window exactly when no two attempts share a timestamp
      (no endpoint's allowance is one). */
  lemma AllowanceHoldsExactlyWithoutBursts(key: Key, m: nat)
    ensures AllowanceHolds(key, m) <==> m <= 1
  {
    if m <= 1 {
      forall log, from: int | Ordered(log) && AtMostAtOnce(log, key, m)
        ensures |LetThroughRequests(log, key, from)| <= MaxRequests(key.endpoint)
      {
        BurstsAreBounded(log, key, from, m);
        Grows(MaxRequests(key.endpoint) - 1, m, 1);
      }
    } else {
      BoundIsReached(key, m);
      Grows(MaxRequests(key.endpoint) - 1, 2, m);
    }
  }
}
