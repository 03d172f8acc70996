/** The Redis commands this system relies on, one function per atomic command.
    Time is one monotone clock in milliseconds. A key with a deadline is gone from that instant on. */
module RedisCounters {
  import opened Wrappers

  datatype Counter = Counter(n: nat, deadline: Option<int>)
  type Counters = map<string, Counter>

  predicate Alive(c: Option<Counter>, now: int) {
    c.Some? && (c.value.deadline.None? || now < c.value.deadline.value)
  }

  /** INCR creates an expired or missing key afresh, without a deadline. */
  function IncrKey(c: Option<Counter>, now: int): Counter {
    if Alive(c, now) then c.value.(n := c.value.n + 1) else Counter(1, None)
  }

  /** EXPIRE does nothing to a missing key. */
  function ExpireKey(c: Option<Counter>, now: int, ttl: int): Option<Counter> {
    if Alive(c, now) then Some(c.value.(deadline := Some(now + ttl))) else c
  }

  function Lookup(m: Counters, key: string): Option<Counter> {
    if key in m then Some(m[key]) else None
  }

  function Incr(m: Counters, key: string, now: int): Counters {
    m[key := IncrKey(Lookup(m, key), now)]
  }

  function Expire(m: Counters, key: string, now: int, ttl: int): Counters {
    var c := ExpireKey(Lookup(m, key), now, ttl);
    if c.Some? then m[key := c.value] else m
  }
}

/** The presence index: a GEO set whose members never expire, and one detail key per user that does. */
module RedisGeo {
  import opened Wrappers

  datatype GeoPosition = GeoPosition(lat: real, lon: real)
  datatype Detail = Detail(trackId: string, shareTrack: bool, visibility: string, updatedAt: int)
  datatype Stored = Stored(detail: Detail, deadline: int)

  /** A presence TTL is a positive duration (90 s by default). */
  type Ttl = t: int | 0 < t witness 1

  type GeoSet = map<string, GeoPosition>
  type DetailKeys = map<string, Stored>

  predicate Present(d: DetailKeys, user: string, now: int) {
    user in d && now < d[user].deadline
  }

  function SetDetail(d: DetailKeys, user: string, detail: Detail, now: int, ttl: Ttl): DetailKeys {
    d[user := Stored(detail, now + ttl)]
  }

  function ExpireDetail(d: DetailKeys, user: string, now: int, ttl: Ttl): DetailKeys {
    if Present(d, user, now) then d[user := d[user].(deadline := now + ttl)] else d
  }

  function DelDetail(d: DetailKeys, user: string): DetailKeys {
    d - {user}
  }

  function GeoAdd(g: GeoSet, user: string, pos: GeoPosition): GeoSet {
    g[user := pos]
  }

  function ZRem(g: GeoSet, user: string): GeoSet {
    g - {user}
  }
}

/** One Redis instance, shared by the rate limiters and the presence index. */
module Redis {
  import opened RedisCounters
  import opened RedisGeo

  class Client {
    var now: int
    var counters: Counters
    var geo: GeoSet
    var details: DetailKeys

    constructor ()
      ensures counters == map[] && geo == map[] && details == map[] && now == 0
    {
      now := 0;
      counters, geo, details := map[], map[], map[];
    }
  }
}
