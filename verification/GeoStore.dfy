/** The presence index over Redis: a GEO set without expiry and detail keys with a TTL. */
module GeoStore {
  import opened Wrappers
  import opened RedisGeo
  import Redis

  datatype StoreError = StoreError

  /** Which command of a call fails, counted from the first. A failed command has no effect. */
  datatype Fault = NoFault | FirstFails | SecondFails | ThirdFails

  datatype PresenceEntry = PresenceEntry(userId: string, position: GeoPosition, detail: Detail)
  datatype Candidate = Candidate(userId: string, position: GeoPosition)

  type Metric = (GeoPosition, GeoPosition) -> real

  /** What GEOSEARCH may answer: the members within the radius, each once, in any order. */
  ghost predicate IsSearchReply(dist: Metric, g: GeoSet, pos: GeoPosition, radius: real, names: seq<string>) {
    && (forall i, j :: 0 <= i < j < |names| ==> names[i] != names[j])
    && (forall u :: u in names <==> u in g && dist(pos, g[u]) <= radius)
  }

  function UpsertGeo(g: GeoSet, e: PresenceEntry, fault: Fault): GeoSet {
    if fault.FirstFails? then g else GeoAdd(g, e.userId, e.position)
  }

  function UpsertDetails(d: DetailKeys, e: PresenceEntry, now: int, ttl: Ttl, fault: Fault): DetailKeys {
    if fault.FirstFails? || fault.SecondFails? then d else SetDetail(d, e.userId, e.detail, now, ttl)
  }

  function TouchAnswer(g: GeoSet, d: DetailKeys, user: string, now: int, fault: Fault)
    : Result<Option<GeoPosition>, StoreError>
  {
    if fault.FirstFails? then Err(StoreError)
    else if !Present(d, user, now) then Ok(None)
    else if fault.SecondFails? then Err(StoreError)
    else if user !in g then Ok(None)
    else if fault.ThirdFails? then Err(StoreError)
    else Ok(Some(g[user]))
  }

  function TouchDetails(g: GeoSet, d: DetailKeys, user: string, now: int, ttl: Ttl, fault: Fault): DetailKeys {
    var answer := TouchAnswer(g, d, user, now, fault);
    if answer.Ok? && answer.value.Some? then ExpireDetail(d, user, now, ttl) else d
  }

  function RemoveGeo(g: GeoSet, user: string, fault: Fault): GeoSet {
    if fault.FirstFails? then g else ZRem(g, user)
  }

  function RemoveDetails(d: DetailKeys, user: string, fault: Fault): DetailKeys {
    if fault.FirstFails? || fault.SecondFails? then d else DelDetail(d, user)
  }

  function Candidates(names: seq<string>, g: GeoSet, exclude: string): seq<Candidate> {
    if names == [] then []
    else
      var u := names[|names| - 1];
      Candidates(names[..|names| - 1], g, exclude)
      + if u == exclude || u !in g then [] else [Candidate(u, g[u])]
  }

  function Hydrated(ids: seq<string>, d: DetailKeys, now: int): map<string, Detail> {
    map u | u in ids && Present(d, u, now) :: d[u].detail
  }

  class Store {
    const client: Redis.Client
    const dist: Metric

    constructor (client: Redis.Client, dist: Metric)
      ensures this.client == client && this.dist == dist
    {
      this.client, this.dist := client, dist;
    }

    method Upsert(e: PresenceEntry, ttl: Ttl, fault: Fault) returns (r: Result<(), StoreError>)
      modifies client`geo, client`details
      ensures client.geo == UpsertGeo(old(client.geo), e, fault)
      ensures client.details == UpsertDetails(old(client.details), e, client.now, ttl, fault)
      ensures r.Ok? <==> !fault.FirstFails? && !fault.SecondFails?
    {
      if fault.FirstFails? {
        return Err(StoreError);
      }
      client.geo := GeoAdd(client.geo, e.userId, e.position);
      if fault.SecondFails? {
        return Err(StoreError);
      }
      client.details := SetDetail(client.details, e.userId, e.detail, client.now, ttl);
      r := Ok(());
    }

    method Touch(user: string, ttl: Ttl, fault: Fault) returns (r: Result<Option<GeoPosition>, StoreError>)
      modifies client`details
      ensures r == TouchAnswer(client.geo, old(client.details), user, client.now, fault)
      ensures client.details == TouchDetails(client.geo, old(client.details), user, client.now, ttl, fault)
    {
      if fault.FirstFails? {
        return Err(StoreError);
      }
      if !Present(client.details, user, client.now) {
        return Ok(None);
      }
      if fault.SecondFails? {
        return Err(StoreError);
      }
      if user !in client.geo {
        return Ok(None);
      }
      if fault.ThirdFails? {
        return Err(StoreError);
      }
      client.details := ExpireDetail(client.details, user, client.now, ttl);
      r := Ok(Some(client.geo[user]));
    }

    method Remove(user: string, fault: Fault) returns (r: Result<(), StoreError>)
      modifies client`geo, client`details
      ensures client.geo == RemoveGeo(old(client.geo), user, fault)
      ensures client.details == RemoveDetails(old(client.details), user, fault)
      ensures r.Ok? <==> !fault.FirstFails? && !fault.SecondFails?
    {
      if fault.FirstFails? {
        return Err(StoreError);
      }
      client.geo := ZRem(client.geo, user);
      if fault.SecondFails? {
        return Err(StoreError);
      }
      client.details := DelDetail(client.details, user);
      r := Ok(());
    }

    /** `names` is what GEOSEARCH answered. An empty answer ends the call before GEOPOS. */
    method Search(pos: GeoPosition, radius: real, exclude: string, names: seq<string>, fault: Fault)
      returns (r: Result<seq<Candidate>, StoreError>)
      requires IsSearchReply(dist, client.geo, pos, radius, names)
      ensures r.Err? <==> fault.FirstFails? || (fault.SecondFails? && names != [])
      ensures r.Ok? ==> r.value == Candidates(names, client.geo, exclude)
    {
      if fault.FirstFails? {
        return Err(StoreError);
      }
      if |names| == 0 {
        return Ok([]);
      }
      if fault.SecondFails? {
        return Err(StoreError);
      }
      var out: seq<Candidate> := [];
      for i := 0 to |names|
        invariant out == Candidates(names[..i], client.geo, exclude)
      {
        assert names[..i + 1][..i] == names[..i];
        var name := names[i];
        if name == exclude {
          continue;
        }
        if name !in client.geo {
          continue;
        }
        out := out + [Candidate(name, client.geo[name])];
      }
      assert names[..|names|] == names;
      r := Ok(out);
    }

    method Detail(ids: seq<string>, fault: Fault) returns (r: Result<map<string, Detail>, StoreError>)
      ensures r.Err? <==> fault.FirstFails? && ids != []
      ensures r.Ok? ==> r.value == Hydrated(ids, client.details, client.now)
    {
      var out: map<string, Detail> := map[];
      if |ids| == 0 {
        return Ok(out);
      }
      if fault.FirstFails? {
        return Err(StoreError);
      }
      for i := 0 to |ids|
        invariant out == Hydrated(ids[..i], client.details, client.now)
      {
        assert ids[..i + 1] == ids[..i] + [ids[i]];
        if !Present(client.details, ids[i], client.now) {
          continue;
        }
        out := out[ids[i] := client.details[ids[i]].detail];
      }
      assert ids[..|ids|] == ids;
      r := Ok(out);
    }
  }

  // ----- the two structures behave as one map with expiry -----

  datatype Entry = Entry(position: GeoPosition, detail: Detail, deadline: int)

  /** Who can be found at `now`, and with what. */
  function Directory(g: GeoSet, d: DetailKeys, now: int): map<string, Entry> {
    map u | u in g && Present(d, u, now) :: Entry(g[u], d[u].detail, d[u].deadline)
  }

  datatype Op =
    | DoUpsert(entry: PresenceEntry, ttl: Ttl)
    | DoTouch(user: string, ttl: Ttl)
    | DoRemove(user: string)
    | DoTick(d: nat)

  datatype Db = Db(geo: GeoSet, details: DetailKeys, now: int)

  function ApplyDb(s: Db, op: Op): Db {
    match op
    case DoUpsert(e, ttl) =>
      s.(geo := UpsertGeo(s.geo, e, NoFault), details := UpsertDetails(s.details, e, s.now, ttl, NoFault))
    case DoTouch(u, ttl) => s.(details := TouchDetails(s.geo, s.details, u, s.now, ttl, NoFault))
    case DoRemove(u) => s.(geo := ZRem(s.geo, u), details := DelDetail(s.details, u))
    case DoTick(d) => s.(now := s.now + d)
  }

  datatype TtlMap = TtlMap(entries: map<string, Entry>, now: int)

  /** The same operations on a plain map whose entries disappear at their deadline. */
  function ApplyMap(m: TtlMap, op: Op): TtlMap {
    match op
    case DoUpsert(e, ttl) =>
      m.(entries := m.entries[e.userId := Entry(e.position, e.detail, m.now + ttl)])
    case DoTouch(u, ttl) =>
      if u in m.entries then m.(entries := m.entries[u := m.entries[u].(deadline := m.now + ttl)]) else m
    case DoRemove(u) => m.(entries := m.entries - {u})
    case DoTick(d) =>
      TtlMap(map u | u in m.entries && m.now + d < m.entries[u].deadline :: m.entries[u], m.now + d)
  }

  function RunDb(ops: seq<Op>): Db {
    if ops == [] then Db(map[], map[], 0) else ApplyDb(RunDb(ops[..|ops| - 1]), ops[|ops| - 1])
  }

  function RunMap(ops: seq<Op>): TtlMap {
    if ops == [] then TtlMap(map[], 0) else ApplyMap(RunMap(ops[..|ops| - 1]), ops[|ops| - 1])
  }

  function AbsDb(s: Db): TtlMap {
    TtlMap(Directory(s.geo, s.details, s.now), s.now)
  }

  lemma OpRefines(s: Db, op: Op)
    ensures AbsDb(ApplyDb(s, op)) == ApplyMap(AbsDb(s), op)
  {
    var after := AbsDb(ApplyDb(s, op)).entries;
    var want := ApplyMap(AbsDb(s), op).entries;
    assert after.Keys == want.Keys;
  }

  /** After any run the store is that map. */
  lemma {:induction false} StoreRefinesTtlMap(ops: seq<Op>)
    ensures AbsDb(RunDb(ops)) == RunMap(ops)
  {
    if ops != [] {
      StoreRefinesTtlMap(ops[..|ops| - 1]);
      OpRefines(RunDb(ops[..|ops| - 1]), ops[|ops| - 1]);
    }
  }

  /** Touch says yes exactly for the users in the map, and answers with the mapped position. */
  lemma TouchAnswersFromMap(ops: seq<Op>, user: string)
    ensures var s := RunDb(ops);
            var m := RunMap(ops).entries;
            TouchAnswer(s.geo, s.details, user, s.now, NoFault)
            == Ok(if user in m then Some(m[user].position) else None)
  {
    StoreRefinesTtlMap(ops);
  }

  lemma {:induction false} CandidatesAre(names: seq<string>, g: GeoSet, exclude: string)
    ensures forall c :: c in Candidates(names, g, exclude) <==>
              c.userId in names && c.userId != exclude && c.userId in g && c.position == g[c.userId]
  {
    if names != [] {
      CandidatesAre(names[..|names| - 1], g, exclude);
      assert names == names[..|names| - 1] + [names[|names| - 1]];
    }
  }

  /** The hits stand in the order in which they were answered: hit `i` is answer `from[i]`. */
  ghost predicate InOrder(names: seq<string>, hits: seq<Candidate>, from: seq<nat>) {
    && |from| == |hits|
    && (forall i :: 0 <= i < |from| ==> from[i] < |names| && names[from[i]] == hits[i].userId)
    && (forall i, j :: 0 <= i < j < |from| ==> from[i] < from[j])
  }

  lemma InOrderStep(init: seq<string>, last: string, hits: seq<Candidate>, c: Candidate, from: seq<nat>)
    requires InOrder(init, hits, from)
    ensures InOrder(init + [last], hits, from)
    ensures c.userId == last ==> InOrder(init + [last], hits + [c], from + [|init|])
  {
    var longer := from + [|init|];
    assert forall i :: 0 <= i < |from| ==> longer[i] == from[i] < |init|;
  }

  lemma {:induction false} CandidatesKeepOrder(names: seq<string>, g: GeoSet, exclude: string) returns (from: seq<nat>)
    ensures InOrder(names, Candidates(names, g, exclude), from)
  {
    from := [];
    if names != [] {
      var init, last := names[..|names| - 1], names[|names| - 1];
      from := CandidatesKeepOrder(init, g, exclude);
      assert names == init + [last];
      if last != exclude && last in g {
        InOrderStep(init, last, Candidates(init, g, exclude), Candidate(last, g[last]), from);
        from := from + [|init|];
      } else {
        InOrderStep(init, last, Candidates(init, g, exclude), Candidate(last, GeoPosition(0.0, 0.0)), from);
      }
    }
  }

  ghost predicate Distinct(cs: seq<Candidate>) {
    forall i, j :: 0 <= i < j < |cs| ==> cs[i].userId != cs[j].userId
  }

  lemma {:induction false} CandidatesDistinct(names: seq<string>, g: GeoSet, exclude: string)
    requires forall i, j :: 0 <= i < j < |names| ==> names[i] != names[j]
    ensures Distinct(Candidates(names, g, exclude))
  {
    if names != [] {
      var init, last := names[..|names| - 1], names[|names| - 1];
      CandidatesDistinct(init, g, exclude);
      CandidatesAre(init, g, exclude);
      var before := Candidates(init, g, exclude);
      assert forall c :: c in before ==> c.userId in init;
      assert forall c :: c in before ==> c.userId != last;
      assert forall i :: 0 <= i < |before| ==> before[i] in before;
    }
  }

  /** Search followed by Detail of its hits finds exactly the mapped users in range, with their mapped
      position and detail. A member whose detail expired is in the hits but gets no detail. */
  lemma SearchThenDetailReadsMap(ops: seq<Op>, dist: Metric, pos: GeoPosition, radius: real,
                                 exclude: string, names: seq<string>, ids: seq<string>, u: string)
    requires IsSearchReply(dist, RunDb(ops).geo, pos, radius, names)
    requires forall v :: v in ids <==> exists c :: c in Candidates(names, RunDb(ops).geo, exclude) && c.userId == v
    ensures var s := RunDb(ops);
            var m := RunMap(ops).entries;
            var found := Hydrated(ids, s.details, s.now);
            && (u in found <==> u in m && u != exclude && dist(pos, m[u].position) <= radius)
            && (u in found ==> found[u] == m[u].detail)
            && (u in found ==> Candidate(u, m[u].position) in Candidates(names, s.geo, exclude))
  {
    var s := RunDb(ops);
    StoreRefinesTtlMap(ops);
    CandidatesAre(names, s.geo, exclude);
    if u in s.geo && u != exclude && dist(pos, s.geo[u]) <= radius {
      assert Candidate(u, s.geo[u]) in Candidates(names, s.geo, exclude);
    }
  }
}
