/** The fixed-window limiter: INCR, then EXPIRE on the first hit of a window. */
module RateLimiter {
  import opened Wrappers
  import opened RedisCounters
  import Redis

  datatype RedisError = RedisError

  /** Which command of one call fails. A failed command has no effect. */
  datatype Fault = NoFault | IncrFails | ExpireFails | TtlFails

  datatype Verdict = Verdict(allowed: bool, retryAfter: int)

  function AllowCounters(m: Counters, now: int, key: string, window: int, fault: Fault): Counters {
    if fault.IncrFails? then m
    else
      var m1 := Incr(m, key, now);
      if m1[key].n == 1 && !fault.ExpireFails? then Expire(m1, key, now, window) else m1
  }

  function AllowVerdict(m: Counters, now: int, key: string, limit: int, window: int, fault: Fault)
    : Result<Verdict, RedisError>
  {
    if fault.IncrFails? then Err(RedisError)
    else
      var n := Incr(m, key, now)[key].n;
      if n == 1 && fault.ExpireFails? then Err(RedisError)
      else if n <= limit then Ok(Verdict(true, 0))
      else
        var m2 := AllowCounters(m, now, key, window, fault);
        Ok(Verdict(false,
          if fault.TtlFails? || key !in m2 || m2[key].deadline.None? || m2[key].deadline.value < now
          then window else m2[key].deadline.value - now))
  }

  /** What a caller may rely on: the number of hits already counted in the live window decides. */
  function Hits(m: Counters, key: string, now: int): nat {
    if Alive(Lookup(m, key), now) then m[key].n else 0
  }

  lemma AllowedExactlyBelowLimit(m: Counters, now: int, key: string, limit: int, window: int, fault: Fault)
    ensures var v := AllowVerdict(m, now, key, limit, window, fault);
            (v.Ok? && v.value.allowed) <==>
            (!fault.IncrFails? && Hits(m, key, now) < limit && (fault.ExpireFails? ==> Hits(m, key, now) > 0))
    ensures !fault.IncrFails? && window > 0 ==>
              Hits(AllowCounters(m, now, key, window, fault), key, now) == Hits(m, key, now) + 1
    ensures forall other :: other != key ==>
              Hits(AllowCounters(m, now, key, window, fault), other, now) == Hits(m, other, now)
  {
  }

  /** A first hit opens the window: it is counted for exactly that long. */
  lemma FirstHitOpensWindow(m: Counters, now: int, key: string, window: int, fault: Fault, t: int)
    requires Hits(m, key, now) == 0 && !(key in m && Alive(Some(m[key]), now)) && now <= t
    ensures fault.NoFault? || fault.TtlFails? ==>
              Hits(AllowCounters(m, now, key, window, fault), key, t) == if t < now + window then 1 else 0
    ensures fault.ExpireFails? ==> Hits(AllowCounters(m, now, key, window, fault), key, t) == 1
  {
  }

  /** What a refused caller is told: how long the counted hits last, to the instant, or one window if that cannot be read
      or the key has no expiry. Whoever is let through is told nothing. */
  lemma RetryAfterIsExact(m: Counters, now: int, key: string, limit: int, window: int, fault: Fault)
    requires window > 0 && AllowVerdict(m, now, key, limit, window, fault).Ok?
    ensures var v := AllowVerdict(m, now, key, limit, window, fault).value;
            var after := AllowCounters(m, now, key, window, fault);
            if v.allowed then v.retryAfter == 0
            else if fault.TtlFails? || after[key].deadline.None? then v.retryAfter == window
            else v.retryAfter > 0
                 && forall t :: now <= t ==> (Hits(after, key, t) > 0 <==> t < now + v.retryAfter)
  {
  }

  class RedisRateLimiter {
    const client: Redis.Client

    constructor (client: Redis.Client)
      ensures this.client == client
    {
      this.client := client;
    }

    method Allow(key: string, limit: int, window: int, fault: Fault) returns (r: Result<Verdict, RedisError>)
      modifies client`counters
      ensures r == AllowVerdict(old(client.counters), client.now, key, limit, window, fault)
      ensures client.counters == AllowCounters(old(client.counters), client.now, key, window, fault)
    {
      if fault.IncrFails? {
        return Err(RedisError);
      }
      client.counters := Incr(client.counters, key, client.now);
      var n := client.counters[key].n;
      if n == 1 {
        if fault.ExpireFails? {
          return Err(RedisError);
        }
        client.counters := Expire(client.counters, key, client.now, window);
      }
      if n <= limit {
        return Ok(Verdict(true, 0));
      }
      var ttl := -1;
      if key in client.counters && client.counters[key].deadline.Some? {
        ttl := client.counters[key].deadline.value - client.now;
      }
      if fault.TtlFails? || ttl < 0 {
        ttl := window;
      }
      r := Ok(Verdict(false, ttl));
    }
  }
}
