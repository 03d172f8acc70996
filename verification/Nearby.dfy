/** The data plane: one query's filter pipeline, its budgets and its audit trail. */
module Nearby {
  import opened Wrappers
  import opened RedisCounters
  import opened RedisGeo
  import opened Presence
  import opened Database
  import opened GeoStore
  import RateLimiter
  import Redis

  /** Which dependency calls of one query fail; the sets and the map name targets. */
  datatype Faults = Faults(
    settings: bool,
    search: GeoStore.Fault,
    daily: RateLimiter.Fault,
    block: set<string>,
    target: set<string>,
    follow: set<string>,
    pair: map<string, RateLimiter.Fault>,
    detail: GeoStore.Fault,
    profiles: bool,
    audit: set<string>)

  const NoFaults := Faults(false, GeoStore.NoFault, RateLimiter.NoFault, {}, {}, {}, map[], GeoStore.NoFault, false, {})

  /** Who asks, with which settings row, from where (jittered), at what time. */
  datatype Ask = Ask(requester: string, row: PrivacySettings, pos: GeoPosition, now: int)

  datatype Survivor = Survivor(userId: string, dist: real, mutual: bool, target: PrivacySettings)

  /** The filter loop between two candidates. */
  datatype Scan = Scan(counters: Counters, survivors: seq<Survivor>, failed: bool)

  /** The reporting loop between two survivors. */
  datatype Report = Report(audit: seq<AuditLogEntry>, results: seq<NearbyResult>, failed: bool)

  /** What one query does: the new counters, the audit entries appended, the answer. */
  datatype Outcome = Outcome(counters: Counters, appended: seq<AuditLogEntry>,
                             result: Result<seq<NearbyResult>, PresenceError>)

  function Min(a: real, b: real): real {
    if a < b then a else b
  }

  /** The filters of one candidate, given every answer they need, in the order of the loop. */
  predicate Passes(asker: PrivacySettings, t: PrivacySettings, blocked: bool, mutual: bool, d: real, now: int) {
    && !blocked
    && !t.Hidden() && t.HasActiveConsent(now)
    && !(t.visibility == VISIBILITY_FRIENDS_ONLY && !mutual)
    && !(d > Min(asker.radiusM as real, t.radiusM as real))
  }

  function PairFault(f: Faults, target: string): RateLimiter.Fault {
    if target in f.pair then f.pair[target] else RateLimiter.NoFault
  }

  /** A prospect that passed the filters asks for its pair's budget, and survives if that is granted. */
  function Charge(ask: Ask, f: Faults, st: Scan, s: Survivor): Scan {
    var key := PairKey(ask.requester, s.userId);
    var fault := PairFault(f, s.userId);
    var verdict := RateLimiter.AllowVerdict(st.counters, ask.now, key, PAIR_LIMIT, PAIR_WINDOW, fault);
    var st1 := st.(counters := RateLimiter.AllowCounters(st.counters, ask.now, key, PAIR_WINDOW, fault));
    if verdict.Err? then st1.(failed := true)
    else if !verdict.value.allowed then st1
    else st1.(survivors := st.survivors + [s])
  }

  /** One turn of the filter loop. */
  function Consider(dist: Metric, v: View, ask: Ask, f: Faults, st: Scan, c: Candidate): Scan {
    var t := SettingsOf(v.rows, c.userId);
    var mutual := MutualFollow(v.follows, ask.requester, c.userId);
    var d := dist(ask.pos, c.position);
    if st.failed || c.userId == ask.requester then st
    else if c.userId in f.block then st.(failed := true)
    else if BlockedEitherWay(v.blocks, ask.requester, c.userId) then st
    else if c.userId in f.target then st.(failed := true)
    else if t.Hidden() || !t.HasActiveConsent(ask.now) then st
    else if c.userId in f.follow then st.(failed := true)
    else if t.visibility == VISIBILITY_FRIENDS_ONLY && !mutual then st
    else if d > Min(ask.row.radiusM as real, t.radiusM as real) then st
    else Charge(ask, f, st, Survivor(c.userId, d, mutual, t))
  }

  function ScanAll(dist: Metric, v: View, ask: Ask, f: Faults, counters: Counters, raw: seq<Candidate>): Scan {
    if raw == [] then Scan(counters, [], false)
    else Consider(dist, v, ask, f, ScanAll(dist, v, ask, f, counters, raw[..|raw| - 1]), raw[|raw| - 1])
  }

  predicate NeedsProfile(s: Survivor) {
    s.mutual || s.target.revealLevel == REVEAL_OPEN_DISCOVERY
  }

  function ResultFor(s: Survivor, detail: Detail, users: map<string, Profile>): NearbyResult {
    var named := NeedsProfile(s) && s.userId in users;
    NearbyResult(s.userId,
                 if named then users[s.userId].displayName else "",
                 if named then users[s.userId].avatarUrl else "",
                 BucketFor(s.dist),
                 if detail.shareTrack then detail.trackId else "")
  }

  function EntryFor(ask: Ask, r: NearbyResult): AuditLogEntry {
    AuditLogEntry(ask.requester, r.userId, ask.now, r.bucket, ENDPOINT)
  }

  /** One turn of the reporting loop. */
  function ReportOne(ask: Ask, f: Faults, details: map<string, Detail>, users: map<string, Profile>,
                     st: Report, s: Survivor): Report {
    if st.failed || s.userId !in details || BucketFor(s.dist).BucketNone? then st
    else if s.userId in f.audit then st.(failed := true)
    else
      var r := ResultFor(s, details[s.userId], users);
      Report(st.audit + [EntryFor(ask, r)], st.results + [r], false)
  }

  function ReportAll(ask: Ask, f: Faults, details: map<string, Detail>, users: map<string, Profile>,
                     survivors: seq<Survivor>): Report {
    if survivors == [] then Report([], [], false)
    else ReportOne(ask, f, details, users,
                   ReportAll(ask, f, details, users, survivors[..|survivors| - 1]), survivors[|survivors| - 1])
  }

  function IdsOf(survivors: seq<Survivor>): seq<string> {
    seq(|survivors|, i requires 0 <= i < |survivors| => survivors[i].userId)
  }

  predicate AnyNeedsProfile(survivors: seq<Survivor>) {
    exists s :: s in survivors && NeedsProfile(s)
  }

  function Failure(counters: Counters, appended: seq<AuditLogEntry>): Outcome {
    Outcome(counters, appended, Err(PresenceError.Unavailable))
  }

  /** Everything after the search: daily budget, filters, hydration, report. */
  function AfterSearch(dist: Metric, v: View, ask: Ask, f: Faults, counters: Counters, d: DetailKeys,
                       raw: seq<Candidate>): Outcome {
    if raw == [] then Outcome(counters, [], Ok([]))
    else
      var key := DailyKey(ask.requester);
      var daily := RateLimiter.AllowVerdict(counters, ask.now, key, DAILY_LIMIT, DAILY_WINDOW, f.daily);
      var m := RateLimiter.AllowCounters(counters, ask.now, key, DAILY_WINDOW, f.daily);
      if daily.Err? then Failure(m, [])
      else if !daily.value.allowed then Outcome(m, [], Ok([]))
      else
        var scan := ScanAll(dist, v, ask, f, m, raw);
        if scan.failed then Failure(scan.counters, [])
        else if scan.survivors == [] then Outcome(scan.counters, [], Ok([]))
        else if f.detail.FirstFails? then Failure(scan.counters, [])
        else if AnyNeedsProfile(scan.survivors) && f.profiles then Failure(scan.counters, [])
        else
          var report := ReportAll(ask, f, Hydrated(IdsOf(scan.survivors), d, ask.now), v.users, scan.survivors);
          if report.failed then Failure(scan.counters, report.audit)
          else Outcome(scan.counters, report.audit, Ok(report.results))
  }

  function SearchRadius(ask: Ask): real {
    ask.row.radiusM as real + SEARCH_PADDING
  }

  /** `names` is what GEOSEARCH answers around the asker. */
  function Query(dist: Metric, v: View, ask: Ask, f: Faults, counters: Counters, g: GeoSet, d: DetailKeys,
                 names: seq<string>): Outcome {
    if f.search.FirstFails? || (f.search.SecondFails? && names != []) then Failure(counters, [])
    else AfterSearch(dist, v, ask, f, counters, d, Candidates(names, g, ask.requester))
  }

  /** What one frame does: the index it leaves behind, and its query. */
  datatype FrameOutcome = FrameOutcome(geo: GeoSet, details: DetailKeys, query: Outcome)

  function Refused(g: GeoSet, d: DetailKeys, counters: Counters, e: PresenceError): FrameOutcome {
    FrameOutcome(g, d, Outcome(counters, [], Err(e)))
  }

  function OwnEntry(user: string, row: PrivacySettings, pos: GeoPosition, trackId: string, now: int): PresenceEntry {
    PresenceEntry(user, pos, Detail(trackId, row.shareTrack, row.visibility, now))
  }

  /** The index after an update frame: a hidden user is taken out (best effort), any other put in. */
  function GeoAfterUpdate(g: GeoSet, e: PresenceEntry, hidden: bool, fault: GeoStore.Fault): GeoSet {
    if !hidden then UpsertGeo(g, e, fault)
    else RemoveGeo(g, e.userId, fault)
  }

  function DetailsAfterUpdate(d: DetailKeys, e: PresenceEntry, hidden: bool, now: int, ttl: Ttl,
                              fault: GeoStore.Fault): DetailKeys {
    if !hidden then UpsertDetails(d, e, now, ttl, fault)
    else RemoveDetails(d, e.userId, fault)
  }

  function UpdateFrame(dist: Metric, v: View, user: string, jittered: Option<GeoPosition>, trackId: string, ttl: Ttl,
                       f: Faults, write: GeoStore.Fault, counters: Counters, g: GeoSet, d: DetailKeys, now: int,
                       names: seq<string>): FrameOutcome {
    var row := SettingsOf(v.rows, user);
    var consent := CheckConsent(row, now);
    if f.settings then Refused(g, d, counters, PresenceError.Unavailable)
    else if consent.Err? then Refused(g, d, counters, consent.error)
    else if jittered.None? then Refused(g, d, counters, PresenceError.Unavailable)
    else
      var e := OwnEntry(user, row, jittered.value, trackId, now);
      var g1 := GeoAfterUpdate(g, e, row.Hidden(), write);
      var d1 := DetailsAfterUpdate(d, e, row.Hidden(), now, ttl, write);
      if !row.Hidden() && (write.FirstFails? || write.SecondFails?)
      then Refused(g1, d1, counters, PresenceError.Unavailable)
      else FrameOutcome(g1, d1, Query(dist, v, Ask(user, row, jittered.value, now), f, counters, g1, d1, names))
  }

  function HeartbeatFrame(dist: Metric, v: View, user: string, ttl: Ttl, f: Faults, touch: GeoStore.Fault,
                          counters: Counters, g: GeoSet, d: DetailKeys, now: int, names: seq<string>): FrameOutcome {
    var row := SettingsOf(v.rows, user);
    var consent := CheckConsent(row, now);
    if f.settings then Refused(g, d, counters, PresenceError.Unavailable)
    else if consent.Err? then Refused(g, d, counters, consent.error)
    else
      var touched := TouchAnswer(g, d, user, now, touch);
      var d1 := TouchDetails(g, d, user, now, ttl, touch);
      if touched.Err? then Refused(g, d1, counters, PresenceError.Unavailable)
      else if touched.value.None? then FrameOutcome(g, d1, Outcome(counters, [], Ok([])))
      else FrameOutcome(g, d1, Query(dist, v, Ask(user, row, touched.value.value, now), f, counters, g, d1, names))
  }

  lemma {:induction false} FailureEndsScan(dist: Metric, v: View, ask: Ask, f: Faults, counters: Counters,
                                           raw: seq<Candidate>, i: nat)
    requires i <= |raw| && ScanAll(dist, v, ask, f, counters, raw[..i]).failed
    ensures ScanAll(dist, v, ask, f, counters, raw) == ScanAll(dist, v, ask, f, counters, raw[..i])
  {
    if i < |raw| {
      assert raw[..|raw| - 1][..i] == raw[..i];
      FailureEndsScan(dist, v, ask, f, counters, raw[..|raw| - 1], i);
    } else {
      assert raw[..i] == raw;
    }
  }

  lemma {:induction false} FailureEndsReport(ask: Ask, f: Faults, details: map<string, Detail>,
                                             users: map<string, Profile>, survivors: seq<Survivor>, i: nat)
    requires i <= |survivors| && ReportAll(ask, f, details, users, survivors[..i]).failed
    ensures ReportAll(ask, f, details, users, survivors) == ReportAll(ask, f, details, users, survivors[..i])
  {
    if i < |survivors| {
      assert survivors[..|survivors| - 1][..i] == survivors[..i];
      FailureEndsReport(ask, f, details, users, survivors[..|survivors| - 1], i);
    } else {
      assert survivors[..i] == survivors;
    }
  }

  class NearbyService {
    const db: Tables
    const redis: Redis.Client
    const geo: Store
    const pairLimiter: RateLimiter.RedisRateLimiter
    const dailyLimiter: RateLimiter.RedisRateLimiter

    constructor (db: Tables, redis: Redis.Client, geo: Store, pairLimiter: RateLimiter.RedisRateLimiter,
                 dailyLimiter: RateLimiter.RedisRateLimiter)
      requires geo.client == redis && pairLimiter.client == redis && dailyLimiter.client == redis
      ensures Valid() && this.db == db && this.redis == redis && this.geo == geo
    {
      this.db, this.redis, this.geo := db, redis, geo;
      this.pairLimiter, this.dailyLimiter := pairLimiter, dailyLimiter;
    }

    predicate Valid() {
      geo.client == redis && pairLimiter.client == redis && dailyLimiter.client == redis
    }

    method SettingsOrDefault(user: string, fails: bool) returns (r: Result<PrivacySettings, PresenceError>)
      ensures r == if fails then Err(PresenceError.Unavailable) else Ok(SettingsOf(db.rows, user))
    {
      if fails {
        return Err(PresenceError.Unavailable);
      }
      if user !in db.rows {
        return Ok(DefaultPrivacySettings(user));
      }
      r := Ok(db.rows[user]);
    }

    /** Asked before a connection is accepted, and again on every frame. */
    method CheckConsentOf(user: string, fails: bool) returns (r: Result<(), PresenceError>)
      ensures r == if fails then Err(PresenceError.Unavailable)
                   else CheckConsent(SettingsOf(db.rows, user), redis.now)
    {
      var st := SettingsOrDefault(user, fails);
      if st.Err? {
        return Err(st.error);
      }
      r := CheckConsent(st.value, redis.now);
    }

    /** One candidate of the filter loop: `kept` if it survives, an error if a dependency fails. */
    method Filter(ask: Ask, f: Faults, c: Candidate)
      returns (r: Result<Option<Survivor>, PresenceError>)
      requires Valid() && ask.now == redis.now
      modifies redis`counters
      ensures forall survivors ::
                Consider(geo.dist, db.Look(), ask, f, Scan(old(redis.counters), survivors, false), c)
                == Scan(redis.counters, if r.Ok? && r.value.Some? then survivors + [r.value.value] else survivors, r.Err?)
    {
      if c.userId == ask.requester {
        return Ok(None);
      }
      if c.userId in f.block {
        return Err(PresenceError.Unavailable);
      }
      if BlockedEitherWay(db.blocks, ask.requester, c.userId) {
        return Ok(None);
      }
      var target := SettingsOrDefault(c.userId, c.userId in f.target);
      if target.Err? {
        return Err(target.error);
      }
      var t := target.value;
      if t.paused || t.visibility == VISIBILITY_INVISIBLE {
        return Ok(None);
      }
      if !t.HasActiveConsent(ask.now) {
        return Ok(None);
      }
      if c.userId in f.follow {
        return Err(PresenceError.Unavailable);
      }
      var mutual := MutualFollow(db.follows, ask.requester, c.userId);
      if t.visibility == VISIBILITY_FRIENDS_ONLY && !mutual {
        return Ok(None);
      }
      var d := geo.dist(ask.pos, c.position);
      if d > Min(ask.row.radiusM as real, t.radiusM as real) {
        return Ok(None);
      }
      var verdict := pairLimiter.Allow(PairKey(ask.requester, c.userId), PAIR_LIMIT, PAIR_WINDOW,
                                       PairFault(f, c.userId));
      if verdict.Err? {
        return Err(PresenceError.Unavailable);
      }
      if !verdict.value.allowed {
        return Ok(None);
      }
      r := Ok(Some(Survivor(c.userId, d, mutual, t)));
    }

    /** The hydrated survivors, one audit entry each; an entry that cannot be written ends the query. */
    method Disclose(ask: Ask, f: Faults, details: map<string, Detail>, users: map<string, Profile>,
                    survivors: seq<Survivor>)
      returns (r: Result<seq<NearbyResult>, PresenceError>)
      modifies db`audit
      ensures var report := ReportAll(ask, f, details, users, survivors);
              && db.audit == old(db.audit) + report.audit
              && r == if report.failed then Err(PresenceError.Unavailable) else Ok(report.results)
    {
      var results: seq<NearbyResult> := [];
      for i := 0 to |survivors|
        invariant ReportAll(ask, f, details, users, survivors[..i]).results == results
        invariant !ReportAll(ask, f, details, users, survivors[..i]).failed
        invariant db.audit == old(db.audit) + ReportAll(ask, f, details, users, survivors[..i]).audit
      {
        assert survivors[..i + 1][..i] == survivors[..i];
        var s := survivors[i];
        if s.userId !in details {
          continue;
        }
        var bucket := BucketFor(s.dist);
        if bucket == BucketNone {
          continue;
        }
        var res := NearbyResult(s.userId, "", "", bucket, "");
        if NeedsProfile(s) {
          if s.userId in users {
            res := res.(displayName := users[s.userId].displayName, avatarUrl := users[s.userId].avatarUrl);
          }
        }
        if details[s.userId].shareTrack {
          res := res.(trackId := details[s.userId].trackId);
        }
        if s.userId in f.audit {
          FailureEndsReport(ask, f, details, users, survivors, i + 1);
          return Err(PresenceError.Unavailable);
        }
        db.audit := db.audit + [AuditLogEntry(ask.requester, s.userId, ask.now, bucket, ENDPOINT)];
        results := results + [res];
      }
      assert survivors[..|survivors|] == survivors;
      r := Ok(results);
    }

    /** The filter loop. */
    method Collect(ask: Ask, f: Faults, raw: seq<Candidate>) returns (r: Result<seq<Survivor>, PresenceError>)
      requires Valid() && ask.now == redis.now
      modifies redis`counters
      ensures var scan := ScanAll(geo.dist, db.Look(), ask, f, old(redis.counters), raw);
              && redis.counters == scan.counters
              && r == if scan.failed then Err(PresenceError.Unavailable) else Ok(scan.survivors)
    {
      var survivors: seq<Survivor> := [];
      ghost var m := redis.counters;
      for i := 0 to |raw|
        invariant ScanAll(geo.dist, db.Look(), ask, f, m, raw[..i]) == Scan(redis.counters, survivors, false)
      {
        assert raw[..i + 1][..i] == raw[..i];
        var kept := Filter(ask, f, raw[i]);
        if kept.Err? {
          FailureEndsScan(geo.dist, db.Look(), ask, f, m, raw, i + 1);
          return Err(PresenceError.Unavailable);
        }
        if kept.value.Some? {
          survivors := survivors + [kept.value.value];
        }
      }
      assert raw[..|raw|] == raw;
      r := Ok(survivors);
    }

    method QueryFrom(ask: Ask, f: Faults, names: seq<string>)
      returns (r: Result<seq<NearbyResult>, PresenceError>)
      requires Valid() && ask.now == redis.now
      requires IsSearchReply(geo.dist, redis.geo, ask.pos, SearchRadius(ask), names)
      modifies redis`counters, db`audit
      ensures var o := Query(geo.dist, old(db.Look()), ask, f, old(redis.counters), redis.geo, redis.details, names);
              && r == o.result && redis.counters == o.counters && db.audit == old(db.audit) + o.appended
    {
      var found := geo.Search(ask.pos, ask.row.radiusM as real + SEARCH_PADDING, ask.requester, names, f.search);
      if found.Err? {
        return Err(PresenceError.Unavailable);
      }
      var raw := found.value;
      if |raw| == 0 {
        return Ok([]);
      }
      var daily := dailyLimiter.Allow(DailyKey(ask.requester), DAILY_LIMIT, DAILY_WINDOW, f.daily);
      if daily.Err? {
        return Err(PresenceError.Unavailable);
      }
      if !daily.value.allowed {
        return Ok([]);
      }
      var collected := Collect(ask, f, raw);
      if collected.Err? {
        return Err(collected.error);
      }
      var survivors := collected.value;
      if |survivors| == 0 {
        return Ok([]);
      }
      var details := geo.Detail(IdsOf(survivors), f.detail);
      if details.Err? {
        return Err(PresenceError.Unavailable);
      }
      if AnyNeedsProfile(survivors) && f.profiles {
        return Err(PresenceError.Unavailable);
      }
      r := Disclose(ask, f, details.value, db.users, survivors);
    }

    /** An "update" frame. `jittered` is what the jitterer made of the raw coordinate, None if it failed. */
    method ApplyUpdate(user: string, jittered: Option<GeoPosition>, trackId: string, ttl: Ttl, f: Faults,
                       write: GeoStore.Fault, names: seq<string>)
      returns (r: Result<seq<NearbyResult>, PresenceError>)
      requires Valid()
      requires var row := SettingsOf(db.rows, user);
               jittered.Some? ==>
                 IsSearchReply(geo.dist,
                   GeoAfterUpdate(redis.geo, OwnEntry(user, row, jittered.value, trackId, redis.now), row.Hidden(), write),
                   jittered.value, SearchRadius(Ask(user, row, jittered.value, redis.now)), names)
      modifies redis`counters, redis`geo, redis`details, db`audit
      ensures var o := UpdateFrame(geo.dist, old(db.Look()), user, jittered, trackId, ttl, f, write,
                                   old(redis.counters), old(redis.geo), old(redis.details), redis.now, names);
              && redis.geo == o.geo && redis.details == o.details && redis.counters == o.query.counters
              && db.audit == old(db.audit) + o.query.appended && r == o.query.result
    {
      var st := SettingsOrDefault(user, f.settings);
      if st.Err? {
        return Err(st.error);
      }
      var row := st.value;
      var consent := CheckConsent(row, redis.now);
      if consent.Err? {
        return Err(consent.error);
      }
      if jittered.None? {
        return Err(PresenceError.Unavailable);
      }
      var e := OwnEntry(user, row, jittered.value, trackId, redis.now);
      if row.paused || row.visibility == VISIBILITY_INVISIBLE {
        var _ := geo.Remove(user, write);
      } else {
        var stored := geo.Upsert(e, ttl, write);
        if stored.Err? {
          return Err(PresenceError.Unavailable);
        }
      }
      assert redis.geo == GeoAfterUpdate(old(redis.geo), e, row.Hidden(), write);
      assert redis.details == DetailsAfterUpdate(old(redis.details), e, row.Hidden(), redis.now, ttl, write);
      r := QueryFrom(Ask(user, row, jittered.value, redis.now), f, names);
    }

    /** A "heartbeat" frame: no coordinate, the stored position is renewed and asked from. */
    method ApplyHeartbeat(user: string, ttl: Ttl, f: Faults, touch: GeoStore.Fault, names: seq<string>)
      returns (r: Result<seq<NearbyResult>, PresenceError>)
      requires Valid()
      requires user in redis.geo ==>
                 IsSearchReply(geo.dist, redis.geo, redis.geo[user],
                   SearchRadius(Ask(user, SettingsOf(db.rows, user), redis.geo[user], redis.now)), names)
      modifies redis`counters, redis`details, db`audit
      ensures var o := HeartbeatFrame(geo.dist, old(db.Look()), user, ttl, f, touch,
                                      old(redis.counters), redis.geo, old(redis.details), redis.now, names);
              && redis.geo == o.geo && redis.details == o.details && redis.counters == o.query.counters
              && db.audit == old(db.audit) + o.query.appended && r == o.query.result
    {
      var st := SettingsOrDefault(user, f.settings);
      if st.Err? {
        return Err(st.error);
      }
      var consent := CheckConsent(st.value, redis.now);
      if consent.Err? {
        return Err(consent.error);
      }
      var touched := geo.Touch(user, ttl, touch);
      if touched.Err? {
        return Err(PresenceError.Unavailable);
      }
      if touched.value.None? {
        return Ok([]);
      }
      r := QueryFrom(Ask(user, st.value, touched.value.value, redis.now), f, names);
    }

    /** The "visibility" frame: only "invisible" acts on the index at once. */
    method SetVisibility(user: string, mode: string, fault: GeoStore.Fault) returns (r: Result<(), StoreError>)
      requires Valid()
      modifies redis`geo, redis`details
      ensures redis.geo == if mode == VISIBILITY_INVISIBLE then RemoveGeo(old(redis.geo), user, fault)
                           else old(redis.geo)
      ensures redis.details == if mode == VISIBILITY_INVISIBLE then RemoveDetails(old(redis.details), user, fault)
                               else old(redis.details)
      ensures r.Ok? <==> mode != VISIBILITY_INVISIBLE || (!fault.FirstFails? && !fault.SecondFails?)
    {
      if mode == VISIBILITY_INVISIBLE {
        r := geo.Remove(user, fault);
      } else {
        r := Ok(());
      }
    }
  }
}
