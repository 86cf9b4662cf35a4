/** The token bucket kept per key in the shared store, the atomic
    refill-and-consume script that runs against it, and the Java wrapper
    that turns the script's reply into a decision.

    The store is an in-memory map from key to the two hash fields the
    script keeps (`tokens`, `last_refill`). The script runs atomically, so
    one sequential map models it. Lua numbers are modelled as reals. */
module TokenBucket {
  import opened Wrappers
  import opened RateLimiterResponse

  /** The hash stored under one key. */
  datatype Bucket = Bucket(tokens: real, lastRefill: int)

  type BucketMap = map<string, Bucket>

  /** The script's reply {allowed flag, remaining, reset_at}. */
  datatype ScriptReply = ScriptReply(flag: int, remaining: int, resetAt: int)

  /** What the Java side receives from the store call: a list of longs, a
      null, or an exception (store unreachable, timeout, protocol error). */
  datatype StoreReply = Reply(values: seq<int>) | NullReply | StoreError

  const RateLimitExceeded: string := "Rate limit exceeded"

  /** Tokens per second: limit / windowSeconds. */
  function RefillRate(limit: int, windowSeconds: int): (rate: real)
    requires limit > 0 && windowSeconds > 0
    ensures rate > 0.0
    ensures rate * windowSeconds as real == limit as real
  {
    limit as real / windowSeconds as real
  }

  /** The bucket the script works on: the stored one, or, on first access,
      a full bucket stamped with the current time. */
  function Loaded(m: BucketMap, key: string, capacity: real, now: int): (b: Bucket)
    ensures key in m ==> b == m[key]
    ensures key !in m ==> b.tokens == capacity && b.lastRefill == now
  {
    if key in m then m[key] else Bucket(capacity, now)
  }

  /** The token count after continuous refill up to `now`, capped at
      capacity. A clock earlier than last_refill adds nothing. */
  function Refilled(b: Bucket, capacity: real, rate: real, now: int): (t: real)
    requires rate > 0.0
    ensures t <= capacity
    ensures b.tokens <= capacity ==> b.tokens <= t
    ensures 0.0 <= b.tokens && 0.0 <= capacity ==> 0.0 <= t
    ensures t <= b.tokens + (if now > b.lastRefill then (now - b.lastRefill) as real * rate else 0.0)
    ensures t == capacity || t == b.tokens + (if now > b.lastRefill then (now - b.lastRefill) as real * rate else 0.0)
  {
    var timePassed := if now - b.lastRefill > 0 then now - b.lastRefill else 0;
    var tokensToAdd := timePassed as real * rate;
    if capacity < b.tokens + tokensToAdd then capacity else b.tokens + tokensToAdd
  }

  /** The Lua script as one function of the store: initialise a missing key,
      refill, then consume one token if at least one is there. The allowed
      branch writes both fields; the blocked branch writes only
      last_refill, so the stored token count keeps its pre-refill value. */
  function Script(m: BucketMap, key: string, capacity: real, rate: real, now: int): (res: (BucketMap, ScriptReply))
    requires rate > 0.0
    ensures res.0.Keys == m.Keys + {key}
    ensures forall k :: k in m && k != key ==> res.0[k] == m[k]
    ensures res.0[key].lastRefill == now
    ensures res.1.flag == 1 || res.1.flag == 0
    ensures var b := Loaded(m, key, capacity, now);
            var t := Refilled(b, capacity, rate, now);
            && (t >= 1.0 ==> res.0[key].tokens == t - 1.0 && res.1.flag == 1
                             && res.1.remaining == (t - 1.0).Floor
                             && res.1.resetAt == (now as real + (capacity - (t - 1.0)) / rate).Floor)
            && (t < 1.0 ==> res.0[key].tokens == b.tokens && res.1.flag == 0 && res.1.remaining == 0
                            && res.1.resetAt == (now as real + (1.0 - t) / rate).Floor)
  {
    var b := Loaded(m, key, capacity, now);
    var tokens := Refilled(b, capacity, rate, now);
    if tokens >= 1.0 then
      var left := tokens - 1.0;
      (m[key := Bucket(left, now)],
       ScriptReply(1, left.Floor, (now as real + (capacity - left) / rate).Floor))
    else
      (m[key := Bucket(b.tokens, now)],
       ScriptReply(0, 0, (now as real + (1.0 - tokens) / rate).Floor))
  }

  /** A reply the Java side can read: a list of exactly three longs. */
  predicate WellFormed(reply: StoreReply)
  {
    reply.Reply? && |reply.values| == 3
  }

  /** The decision for a reply that cannot be read: fail open with a full
      quota that resets one window from now. */
  function FailOpen(limit: int, windowSeconds: int, now: int): (r: Response)
    ensures r.allowed && r.limit == limit && r.remaining == limit
    ensures r.resetAt == now + windowSeconds
    ensures r.reason.None? && r.identifier.None?
  {
    Allowed(limit, limit, now + windowSeconds)
  }

  /** The Java side of `isAllowed`: a null, an exception or a list that is
      not three long fails open; flag 1 is allowed; any other flag is
      blocked with reason "Rate limit exceeded". */
  function Interpret(reply: StoreReply, limit: int, windowSeconds: int, now: int): (r: Response)
    ensures r.limit == limit && r.identifier.None?
    ensures !WellFormed(reply) ==> r == FailOpen(limit, windowSeconds, now)
    ensures WellFormed(reply) ==> (r.allowed <==> reply.values[0] == 1) && r.resetAt == reply.values[2]
    ensures WellFormed(reply) && reply.values[0] == 1 ==> r.remaining == reply.values[1]
    ensures r.allowed ==> r.reason.None?
    ensures !r.allowed ==> r.remaining == 0 && r.reason == Some(RateLimitExceeded)
  {
    match reply
    case Reply(v) =>
      if |v| != 3 then FailOpen(limit, windowSeconds, now)
      else if v[0] == 1 then Allowed(limit, v[1], v[2])
      else Blocked(limit, v[2], RateLimitExceeded)
    case NullReply => FailOpen(limit, windowSeconds, now)
    case StoreError => FailOpen(limit, windowSeconds, now)
  }

  /** One `isAllowed(key, limit, windowSeconds)` call with the clock reading
      `now`: the new store and the decision. An unreachable store is left
      alone and the call fails open. */
  function Check(m: BucketMap, reachable: bool, key: string, limit: int, windowSeconds: int, now: int): (res: (BucketMap, Response))
    requires limit > 0 && windowSeconds > 0
    ensures !reachable ==> res == (m, FailOpen(limit, windowSeconds, now))
    ensures reachable ==> res.0.Keys == m.Keys + {key} && res.0[key].lastRefill == now
    ensures forall k :: k in m && k != key ==> k in res.0 && res.0[k] == m[k]
    ensures forall k :: k in res.0 && k != key ==> k in m
    ensures res.1.limit == limit && res.1.identifier.None?
    ensures res.1.allowed ==> res.1.reason.None?
    ensures !res.1.allowed ==> res.1.remaining == 0 && res.1.reason == Some(RateLimitExceeded)
  {
    if !reachable then (m, Interpret(StoreError, limit, windowSeconds, now))
    else
      var (m', s) := Script(m, key, limit as real, RefillRate(limit, windowSeconds), now);
      (m', Interpret(Reply([s.flag, s.remaining, s.resetAt]), limit, windowSeconds, now))
  }

  /** What one check does to the checked key, for a reachable store: it is
      allowed iff the refilled count reaches one token; an allowed check
      stores exactly one token less than the refilled count and reports its
      floor; a blocked check stores the pre-refill count. Either way
      last_refill becomes `now` and the reset time is not before `now`. */
  lemma CheckOutcome(m: BucketMap, key: string, limit: int, windowSeconds: int, now: int)
    requires limit > 0 && windowSeconds > 0
    requires key in m ==> m[key].tokens >= 0.0
    ensures var capacity := limit as real;
            var b := Loaded(m, key, capacity, now);
            var t := Refilled(b, capacity, RefillRate(limit, windowSeconds), now);
            var (m', r) := Check(m, true, key, limit, windowSeconds, now);
            && (r.allowed <==> t >= 1.0)
            && r.limit == limit
            && r.resetAt >= now
            && (r.allowed ==> r.resetAt == (now as real + (capacity - (t - 1.0)) / RefillRate(limit, windowSeconds)).Floor)
            && (!r.allowed ==> r.resetAt == (now as real + (1.0 - t) / RefillRate(limit, windowSeconds)).Floor)
            && (r.allowed ==> m'[key] == Bucket(t - 1.0, now) && r.remaining == (t - 1.0).Floor
                              && 0 <= r.remaining < limit && r.reason.None?)
            && (!r.allowed ==> m'[key] == Bucket(b.tokens, now) && r.remaining == 0
                               && r.reason == Some(RateLimitExceeded))
  {
    var capacity, rate := limit as real, RefillRate(limit, windowSeconds);
    var b := Loaded(m, key, capacity, now);
    var t := Refilled(b, capacity, rate, now);
    assert 0.0 <= t <= capacity;
    if t >= 1.0 {
      var left := t - 1.0;
      assert (capacity - left) / rate >= 0.0 by { DivNonNegative(capacity - left, rate); }
    } else {
      assert (1.0 - t) / rate >= 0.0 by { DivNonNegative(1.0 - t, rate); }
    }
  }

  lemma DivNonNegative(x: real, y: real)
    requires x >= 0.0 && y > 0.0
    ensures x / y >= 0.0
  {
  }

  /** The checks of a burst of `n` requests for one key, all at the same
      instant. */
  function Burst(m: BucketMap, key: string, limit: int, windowSeconds: int, now: int, n: nat): (res: (BucketMap, seq<Response>))
    requires limit > 0 && windowSeconds > 0
    ensures |res.1| == n
  {
    if n == 0 then (m, [])
    else
      var (m1, rs) := Burst(m, key, limit, windowSeconds, now, n - 1);
      var (m2, r) := Check(m1, true, key, limit, windowSeconds, now);
      (m2, rs + [r])
  }

  /** On a fresh key, the first `limit` checks at one instant are allowed
      with remaining limit-1, limit-2, ..., and each leaves one token fewer. */
  lemma {:induction false} BurstOnFreshKey(m: BucketMap, key: string, limit: int, windowSeconds: int, now: int, n: nat)
    requires limit > 0 && windowSeconds > 0
    requires key !in m
    requires n <= limit
    ensures var (m', rs) := Burst(m, key, limit, windowSeconds, now, n);
            && (n > 0 ==> m'[key] == Bucket((limit - n) as real, now))
            && forall i :: 0 <= i < n ==> rs[i].allowed && rs[i].remaining == limit - 1 - i
  {
    if n > 0 {
      BurstOnFreshKey(m, key, limit, windowSeconds, now, n - 1);
      var (m1, rs) := Burst(m, key, limit, windowSeconds, now, n - 1);
      var capacity, rate := limit as real, RefillRate(limit, windowSeconds);
      var b := Loaded(m1, key, capacity, now);
      assert b == Bucket((limit - (n - 1)) as real, now);
      assert Refilled(b, capacity, rate, now) == (limit - (n - 1)) as real;
      CheckOutcome(m1, key, limit, windowSeconds, now);
      assert ((limit - (n - 1)) as real - 1.0).Floor == limit - n;
    }
  }

  /** The check after such a burst of `limit` is blocked with nothing
      remaining and reason "Rate limit exceeded". */
  lemma BurstOverflowBlocks(m: BucketMap, key: string, limit: int, windowSeconds: int, now: int)
    requires limit > 0 && windowSeconds > 0
    requires key !in m
    ensures var rs := Burst(m, key, limit, windowSeconds, now, limit + 1).1;
            && !rs[limit].allowed && rs[limit].remaining == 0
            && rs[limit].reason == Some(RateLimitExceeded)
  {
    BurstOnFreshKey(m, key, limit, windowSeconds, now, limit);
    var m1 := Burst(m, key, limit, windowSeconds, now, limit).0;
    CheckOutcome(m1, key, limit, windowSeconds, now);
  }

  /** Capacity 10 over 60 seconds: ten checks at t = 0 pass, the eleventh
      is blocked until t = 6 (one token needs 1 / (1/6) seconds). */
  lemma EleventhCheckResetsAfterSixSeconds(m: BucketMap, key: string)
    requires key !in m
    ensures var rs := Burst(m, key, 10, 60, 0, 11).1;
            && (forall i :: 0 <= i < 10 ==> rs[i].allowed && rs[i].remaining == 9 - i)
            && !rs[10].allowed && rs[10].resetAt == 6
  {
    BurstOnFreshKey(m, key, 10, 60, 0, 10);
    var m1 := Burst(m, key, 10, 60, 0, 10).0;
    assert m1[key] == Bucket(0.0, 0);
    assert Refilled(m1[key], 10.0, RefillRate(10, 60), 0) == 0.0;
  }

  /** A reset key starts over: its next check sees a full bucket and is
      allowed with limit-1 remaining. */
  lemma CheckAfterResetStartsFull(m: BucketMap, key: string, limit: int, windowSeconds: int, now: int)
    requires limit > 0 && windowSeconds > 0
    ensures var (m', r) := Check(m - {key}, true, key, limit, windowSeconds, now);
            && r.allowed && r.remaining == limit - 1
            && m'[key] == Bucket((limit - 1) as real, now)
  {
    var capacity := limit as real;
    assert Loaded(m - {key}, key, capacity, now) == Bucket(capacity, now);
    assert Refilled(Bucket(capacity, now), capacity, RefillRate(limit, windowSeconds), now) == capacity;
    CheckOutcome(m - {key}, key, limit, windowSeconds, now);
  }

  /** A caller who waits, after its last check, at least as long as the
      stored count needs to reach one token is allowed. */
  lemma WaitingLongEnoughIsAllowed(m: BucketMap, key: string, limit: int, windowSeconds: int, now: int)
    requires limit > 0 && windowSeconds > 0
    requires key in m && 0.0 <= m[key].tokens
    requires now >= m[key].lastRefill
    requires m[key].tokens + (now - m[key].lastRefill) as real * RefillRate(limit, windowSeconds) >= 1.0
    ensures Check(m, true, key, limit, windowSeconds, now).1.allowed
  {
    CheckOutcome(m, key, limit, windowSeconds, now);
  }

  /** Because a blocked check stores last_refill = now but not the refilled
      count, the refill accrued before it is lost, and a caller who retries
      exactly at the reported reset time can be blocked again. Capacity 10
      over 60 seconds, emptied at t = 0: a check at t = 3 is blocked with
      resetAt 6, and the retry at t = 6 is blocked too. */
  lemma RetryAtResetCanBlockAgain(m: BucketMap, key: string)
    requires m == map[key := Bucket(0.0, 0)]
    ensures var (m1, r1) := Check(m, true, key, 10, 60, 3);
            var (m2, r2) := Check(m1, true, key, 10, 60, r1.resetAt);
            && !r1.allowed && r1.resetAt == 6
            && m1[key] == Bucket(0.0, 3)
            && !r2.allowed
  {
    var rate := RefillRate(10, 60);
    assert Refilled(Bucket(0.0, 0), 10.0, rate, 3) == 0.5;
    assert Refilled(Bucket(0.0, 3), 10.0, rate, 6) == 0.5;
  }

  /** A blocked check can report a reset time equal to `now` (a wait of
      zero seconds): with 3 tokens per 2 seconds and an empty bucket, one
      token is 2/3 of a second away and the floor drops it. */
  lemma BlockedResetCanBeNow(m: BucketMap, key: string)
    requires m == map[key := Bucket(0.0, 5)]
    ensures var r := Check(m, true, key, 3, 2, 5).1;
            !r.allowed && r.resetAt == 5
  {
    assert Refilled(Bucket(0.0, 5), 3.0, RefillRate(3, 2), 5) == 0.0;
  }

  /** Every way the store call can fail gives the same fail-open decision:
      allowed, a full quota remaining, reset one window from now. */
  lemma FailuresFailOpen(reply: StoreReply, m: BucketMap, key: string, limit: int, windowSeconds: int, now: int)
    requires limit > 0 && windowSeconds > 0
    requires !WellFormed(reply)
    ensures var r := Interpret(reply, limit, windowSeconds, now);
            r.allowed && r.remaining == limit && r.resetAt == now + windowSeconds
    ensures Check(m, false, key, limit, windowSeconds, now) == (m, Interpret(reply, limit, windowSeconds, now))
  {
  }

  /** Every stored token count is non-negative. */
  ghost predicate TokensNonNegative(m: BucketMap)
  {
    forall k :: k in m ==> m[k].tokens >= 0.0
  }

  /** A check never drives a stored token count below zero, and leaves the
      checked key holding at most `limit` tokens. */
  lemma CheckKeepsTokensNonNegative(m: BucketMap, reachable: bool, key: string, limit: int, windowSeconds: int, now: int)
    requires limit > 0 && windowSeconds > 0
    requires TokensNonNegative(m)
    ensures TokensNonNegative(Check(m, reachable, key, limit, windowSeconds, now).0)
    ensures reachable ==> Check(m, reachable, key, limit, windowSeconds, now).0[key].tokens <= limit as real
  {
    if reachable {
      var capacity, rate := limit as real, RefillRate(limit, windowSeconds);
      var b := Loaded(m, key, capacity, now);
      var t := Refilled(b, capacity, rate, now);
      var m' := Check(m, reachable, key, limit, windowSeconds, now).0;
      if t < 1.0 {
        assert m'[key].tokens == b.tokens;
      }
    }
  }

  /** The shared store, holding one bucket per key. `reachable` is the state
      of the connection to the store, which the environment decides. */
  class TokenBucketStore {
    var buckets: BucketMap
    var reachable: bool

    ghost predicate Valid()
      reads this
    {
      TokensNonNegative(buckets)
    }

    constructor ()
      ensures Valid() && buckets == map[] && reachable
    {
      buckets := map[];
      reachable := true;
    }

    /** The environment connects or disconnects the store. */
    method SetReachable(up: bool)
      modifies this`reachable
      ensures reachable == up
    {
      reachable := up;
    }

    /** `isAllowed(key, limit, windowSeconds)`, run step by step as the
        script does it. */
    method IsAllowed(key: string, limit: int, windowSeconds: int, now: int) returns (r: Response)
      requires Valid()
      requires limit > 0 && windowSeconds > 0
      modifies this`buckets
      ensures Valid()
      ensures (buckets, r) == Check(old(buckets), reachable, key, limit, windowSeconds, now)
    {
      var refillRate := limit as real / windowSeconds as real;
      var capacity := limit as real;
      if !reachable {
        r := Interpret(StoreError, limit, windowSeconds, now);
        return;
      }
      ghost var before := buckets;
      var tokens: real, lastRefill: int;
      if key in buckets {
        tokens, lastRefill := buckets[key].tokens, buckets[key].lastRefill;
      } else {
        tokens, lastRefill := capacity, now;
        buckets := buckets[key := Bucket(tokens, lastRefill)];
      }
      ghost var loaded := Bucket(tokens, lastRefill);
      assert loaded == Loaded(before, key, capacity, now);
      var timePassed := if now - lastRefill > 0 then now - lastRefill else 0;
      var tokensToAdd := timePassed as real * refillRate;
      tokens := if capacity < tokens + tokensToAdd then capacity else tokens + tokensToAdd;
      lastRefill := now;
      assert tokens == Refilled(loaded, capacity, refillRate, now);
      var reply: ScriptReply;
      if tokens >= 1.0 {
        tokens := tokens - 1.0;
        buckets := buckets[key := Bucket(tokens, lastRefill)];
        assert buckets == before[key := Bucket(tokens, now)];
        var secondsUntilFull := (capacity - tokens) / refillRate;
        reply := ScriptReply(1, tokens.Floor, (now as real + secondsUntilFull).Floor);
      } else {
        assert buckets[key] == loaded;
        buckets := buckets[key := buckets[key].(lastRefill := lastRefill)];
        assert buckets == before[key := Bucket(loaded.tokens, now)];
        var secondsUntilAvailable := (1.0 - tokens) / refillRate;
        reply := ScriptReply(0, 0, (now as real + secondsUntilAvailable).Floor);
      }
      assert (buckets, reply) == Script(before, key, capacity, refillRate, now);
      r := Interpret(Reply([reply.flag, reply.remaining, reply.resetAt]), limit, windowSeconds, now);
      CheckKeepsTokensNonNegative(before, reachable, key, limit, windowSeconds, now);
    }

    /** `reset(key)`: delete the key; a store error is swallowed. */
    method Reset(key: string)
      requires Valid()
      modifies this`buckets
      ensures Valid()
      ensures buckets == if reachable then old(buckets) - {key} else old(buckets)
    {
      if reachable {
        buckets := buckets - {key};
      }
    }
  }
}
