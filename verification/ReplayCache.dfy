/** The cache of seen invocations (tinycloud-node-server/src/invocation_replay.rs). */
module ReplayCache {
  import opened Order

  /** Instants in nanoseconds since the epoch. */
  type Time = int

  const SECOND: int := 1_000_000_000
  const CLOCK_SKEW_SECONDS: int := 60

  /** The timestamps `OffsetDateTime` can hold. */
  predicate Representable(seconds: int) {
    -377705116800 <= seconds <= 253402300799
  }

  function ExpiresAt(expiration: int, now: Time): Time {
    if Representable(expiration + CLOCK_SKEW_SECONDS) then (expiration + CLOCK_SKEW_SECONDS) * SECOND
    else now + CLOCK_SKEW_SECONDS * SECOND
  }

  function Prune(seen: map<Hash, Time>, now: Time): map<Hash, Time> {
    map k | k in seen && seen[k] > now :: seen[k]
  }

  /** A key is accepted unless it is in the cache after pruning. */
  predicate Accepts(seen: map<Hash, Time>, key: Hash, now: Time) {
    key !in Prune(seen, now)
  }

  function After(seen: map<Hash, Time>, key: Hash, expiration: int, now: Time): map<Hash, Time> {
    if Accepts(seen, key, now) then Prune(seen, now)[key := ExpiresAt(expiration, now)] else Prune(seen, now)
  }

  class Cache {
    var seen: map<Hash, Time>

    constructor ()
      ensures seen == map[]
    {
      seen := map[];
    }

    method CheckAndInsert(key: Hash, expiration: int, now: Time) returns (ok: bool)
      modifies this
      ensures ok == Accepts(old(seen), key, now)
      ensures seen == After(old(seen), key, expiration, now)
    {
      seen := map k | k in seen && seen[k] > now :: seen[k];
      if key in seen {
        return false;
      }
      seen := seen[key := ExpiresAt(expiration, now)];
      ok := true;
    }
  }

  // ---- Runs ----

  /** A call in the order of the lock; `now` was read before. */
  datatype Call = Call(key: Hash, now: Time)

  /** The cache before call `n`; an invocation's hash fixes its expiration. */
  function CacheAt(exp: Hash -> int, calls: seq<Call>, n: nat): map<Hash, Time>
    requires n <= |calls|
  {
    if n == 0 then map[]
    else
      var c := calls[n - 1];
      After(CacheAt(exp, calls, n - 1), c.key, exp(c.key), c.now)
  }

  predicate Accepted(exp: Hash -> int, calls: seq<Call>, i: nat)
    requires i < |calls|
  {
    Accepts(CacheAt(exp, calls, i), calls[i].key, calls[i].now)
  }

  /** While no clock has reached its expiry, an accepted entry stays. */
  lemma {:induction false} EntryStays(exp: Hash -> int, calls: seq<Call>, i: nat, j: nat)
    requires i < j < |calls| && Accepted(exp, calls, i)
    requires forall m :: i < m < j ==> calls[m].now < ExpiresAt(exp(calls[i].key), calls[i].now)
    ensures calls[i].key in CacheAt(exp, calls, j)
    ensures CacheAt(exp, calls, j)[calls[i].key] == ExpiresAt(exp(calls[i].key), calls[i].now)
    decreases j
  {
    hide ExpiresAt;
    if j > i + 1 {
      EntryStays(exp, calls, i, j - 1);
    }
  }

  /** Once a clock has, the entry is gone until the key is accepted again. */
  lemma {:induction false} EntryGone(exp: Hash -> int, calls: seq<Call>, i: nat, m: nat, j: nat)
    requires i < m < j < |calls| && Accepted(exp, calls, i)
    requires calls[m].now >= ExpiresAt(exp(calls[i].key), calls[i].now)
    requires forall x :: i < x < j && calls[x].key == calls[i].key ==> !Accepted(exp, calls, x)
    ensures calls[i].key !in CacheAt(exp, calls, j)
    decreases j
  {
    hide ExpiresAt;
    if j > m + 1 {
      EntryGone(exp, calls, i, m, j - 1);
    } else {
      EntryIs(exp, calls, i, m);
    }
  }

  /** Until it is accepted again, the key has its old entry or none. */
  lemma {:induction false} EntryIs(exp: Hash -> int, calls: seq<Call>, i: nat, j: nat)
    requires i < j < |calls| && Accepted(exp, calls, i)
    requires forall x :: i < x < j && calls[x].key == calls[i].key ==> !Accepted(exp, calls, x)
    ensures calls[i].key in CacheAt(exp, calls, j) ==>
            CacheAt(exp, calls, j)[calls[i].key] == ExpiresAt(exp(calls[i].key), calls[i].now)
    decreases j
  {
    hide ExpiresAt;
    if j > i + 1 {
      EntryIs(exp, calls, i, j - 1);
    }
  }

  /** A minute past the expiration; for one outside the years -9999 to 9999, a minute from the first call. */
  function HeldUntil(expiration: int, now: Time): Time {
    if -377705116800 <= expiration + 60 <= 253402300799 then (expiration + 60) * 1_000_000_000 else now + 60_000_000_000
  }

  /** A key is next accepted exactly when some clock since has reached the expiry it was given. */
  lemma AcceptedAgainIff(exp: Hash -> int, calls: seq<Call>, i: nat, j: nat)
    requires i < j < |calls| && calls[i].key == calls[j].key && Accepted(exp, calls, i)
    requires forall x :: i < x < j && calls[x].key == calls[i].key ==> !Accepted(exp, calls, x)
    ensures Accepted(exp, calls, j) <==>
            exists m :: i < m <= j && calls[m].now >= HeldUntil(exp(calls[i].key), calls[i].now)
  {
    assert HeldUntil(exp(calls[i].key), calls[i].now) == ExpiresAt(exp(calls[i].key), calls[i].now);
    hide ExpiresAt, HeldUntil;
    if m :| i < m < j && calls[m].now >= ExpiresAt(exp(calls[i].key), calls[i].now) {
      EntryGone(exp, calls, i, m, j);
    } else {
      EntryStays(exp, calls, i, j);
    }
  }

  /** No clock, in the order of the lock, lags an earlier one by more than a minute. */
  predicate LagsLittle(calls: seq<Call>) {
    forall a, b :: 0 <= a < b < |calls| ==> calls[a].now <= calls[b].now + 60_000_000_000
  }

  /** With such clocks, an invocation is not accepted a second time before it expires. */
  lemma NoReplayBeforeExpiry(exp: Hash -> int, calls: seq<Call>, i: nat, j: nat)
    requires LagsLittle(calls) && i < j < |calls| && calls[i].key == calls[j].key && Accepted(exp, calls, i)
    requires -377705116800 <= exp(calls[i].key) + 60 <= 253402300799
    requires calls[j].now < exp(calls[i].key) * 1_000_000_000
    ensures !Accepted(exp, calls, j)
  {
    var expires := ExpiresAt(exp(calls[i].key), calls[i].now);
    forall m | i < m <= j ensures calls[m].now < expires {
      assert m == j || calls[m].now <= calls[j].now + CLOCK_SKEW_SECONDS * SECOND;
    }
    hide ExpiresAt;
    EntryStays(exp, calls, i, j);
  }

  // ---- Against a log that forgets nothing ----

  /** The last expiry given to each key ever accepted. */
  function LogAt(exp: Hash -> int, calls: seq<Call>, n: nat): map<Hash, Time>
    requires n <= |calls|
  {
    if n == 0 then map[]
    else
      var c, log := calls[n - 1], LogAt(exp, calls, n - 1);
      if c.key in log && log[c.key] > c.now then log else log[c.key := ExpiresAt(exp(c.key), c.now)]
  }

  predicate LogAccepts(exp: Hash -> int, calls: seq<Call>, i: nat)
    requires i < |calls|
  {
    var log := LogAt(exp, calls, i);
    !(calls[i].key in log && log[calls[i].key] > calls[i].now)
  }

  predicate Monotone(calls: seq<Call>) {
    forall a, b :: 0 <= a < b < |calls| ==> calls[a].now <= calls[b].now
  }

  /** The cache holds the part of the log that the last clock has not passed, or more. */
  lemma {:induction false} CacheIsLog(exp: Hash -> int, calls: seq<Call>, n: nat, now: Time)
    requires Monotone(calls) && n <= |calls| && (n > 0 ==> calls[n - 1].now <= now)
    ensures Prune(CacheAt(exp, calls, n), now) == Prune(LogAt(exp, calls, n), now)
  {
    hide ExpiresAt;
    if n > 0 {
      var c := calls[n - 1];
      CacheIsLog(exp, calls, n - 1, c.now);
      PrunedStep(CacheAt(exp, calls, n - 1), LogAt(exp, calls, n - 1), c.key, ExpiresAt(exp(c.key), c.now), c.now, now);
    }
  }

  lemma PrunedStep(seen: map<Hash, Time>, log: map<Hash, Time>, key: Hash, expires: Time, past: Time, now: Time)
    requires past <= now && Prune(seen, past) == Prune(log, past)
    ensures var seen' := if key !in Prune(seen, past) then Prune(seen, past)[key := expires] else Prune(seen, past);
            var log' := if key in log && log[key] > past then log else log[key := expires];
            Prune(seen', now) == Prune(log', now)
  {
    assert key in Prune(seen, past) <==> key in Prune(log, past);
    forall k ensures k in log && log[k] > past <==> k in Prune(seen, past) {
      assert k in Prune(log, past) <==> k in Prune(seen, past);
    }
    forall k | k in log && log[k] > past ensures Prune(seen, past)[k] == log[k] {
      assert Prune(log, past)[k] == log[k];
    }
  }

  /** With a monotone clock the pruned cache answers every call as the full log would. */
  lemma PruningIsInvisible(exp: Hash -> int, calls: seq<Call>, i: nat)
    requires Monotone(calls) && i < |calls|
    ensures Accepted(exp, calls, i) <==> LogAccepts(exp, calls, i)
  {
    hide CacheAt, LogAt;
    CacheIsLog(exp, calls, i, calls[i].now);
    assert calls[i].key in Prune(CacheAt(exp, calls, i), calls[i].now) <==>
      calls[i].key in Prune(LogAt(exp, calls, i), calls[i].now);
  }

  // ---- Where the guarantee ends ----

  /** A clock that lags further lets the same invocation in twice before it expires. */
  lemma LargerLagReplays(key: Hash, lag: nat)
    requires lag > 60_000_000_000
    ensures var calls := [Call(key, 0), Call(key + 1, 160_000_000_000), Call(key, 160_000_000_000 - lag)];
            var exp := (h: Hash) => 100;
            && Accepted(exp, calls, 0) && Accepted(exp, calls, 2) && calls[2].now < exp(key) * 1_000_000_000
  {
  }

  /** So does an expiration past the year 9999, a minute later and with any clock. */
  lemma FarExpirationReplays(key: Hash, expiration: int, now: Time)
    requires expiration + 60 > 253402300799 && now + 60_000_000_000 < expiration * 1_000_000_000
    ensures var calls := [Call(key, now), Call(key, now + 60_000_000_000)];
            var exp := (h: Hash) => expiration;
            Accepted(exp, calls, 0) && Accepted(exp, calls, 1) && LagsLittle(calls)
  {
  }
}
