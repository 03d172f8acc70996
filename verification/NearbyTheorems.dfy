/** What a query promises, in terms of the whole index and of the tables, not of the pipeline. */
module NearbyTheorems {
  import opened Wrappers
  import opened RedisCounters
  import opened RedisGeo
  import opened Presence
  import opened Database
  import opened GeoStore
  import opened Nearby
  import opened NearbyFaults
  import RateLimiter

  predicate Friends(v: View, a: string, b: string) {
    (a, b) in v.follows && (b, a) in v.follows
  }

  /** `t` may be counted as seen by the asker: not blocked either way, discoverable by its own settings and
      consent, a friend where friends are required, and within both radii. */
  predicate Eligible(dist: Metric, v: View, ask: Ask, g: GeoSet, t: string) {
    var row := SettingsOf(v.rows, t);
    && t in g && t != ask.requester
    && (ask.requester, t) !in v.blocks && (t, ask.requester) !in v.blocks
    && !row.paused && row.visibility != VISIBILITY_INVISIBLE
    && row.consentEnabled && row.renewDue.Some? && ask.now < row.renewDue.value
    && (row.visibility == VISIBILITY_FRIENDS_ONLY ==> Friends(v, ask.requester, t))
    && dist(ask.pos, g[t]) <= ask.row.radiusM as real
    && dist(ask.pos, g[t]) <= row.radiusM as real
  }

  /** `t` is moreover still live in the index and in one of the four buckets. */
  predicate Visible(dist: Metric, v: View, ask: Ask, g: GeoSet, d: DetailKeys, t: string) {
    Eligible(dist, v, ask, g, t) && Present(d, t, ask.now) && !BucketFor(dist(ask.pos, g[t])).BucketNone?
  }

  predicate PairFree(m: Counters, ask: Ask, t: string) {
    RateLimiter.Hits(m, PairKey(ask.requester, t), ask.now) < 1
  }

  predicate DailyFree(m: Counters, ask: Ask) {
    RateLimiter.Hits(m, DailyKey(ask.requester), ask.now) < 200
  }

  predicate Survives(survivors: seq<Survivor>, t: string) {
    exists s :: s in survivors && s.userId == t
  }

  predicate Listed(results: seq<NearbyResult>, t: string) {
    exists r :: r in results && r.userId == t
  }

  predicate Hit(raw: seq<Candidate>, t: string) {
    exists c :: c in raw && c.userId == t
  }

  ghost predicate From(raw: seq<Candidate>, g: GeoSet) {
    forall c :: c in raw ==> c.userId in g && c.position == g[c.userId]
  }

  function SurvivorOf(dist: Metric, v: View, ask: Ask, pos: GeoPosition, t: string): Survivor {
    Survivor(t, dist(ask.pos, pos), MutualFollow(v.follows, ask.requester, t), SettingsOf(v.rows, t))
  }

  /** A target is named for the asker: a mutual follow at any level, anybody else in open discovery. */
  predicate Named(v: View, requester: string, t: string) {
    Friends(v, requester, t) || SettingsOf(v.rows, t).revealLevel == 2
  }

  /** What should be disclosed about `t`, in terms of the tables: name and avatar if `t` is to be named, the bucket of its
      distance, and the track if `t` shares it. */
  function Disclosed(dist: Metric, v: View, ask: Ask, g: GeoSet, d: DetailKeys, t: string): NearbyResult
    requires t in g && t in d
  {
    var profile := if Named(v, ask.requester, t) && t in v.users then v.users[t] else Profile("", "");
    var track := if d[t].detail.shareTrack then d[t].detail.trackId else "";
    NearbyResult(t, profile.displayName, profile.avatarUrl, BucketFor(dist(ask.pos, g[t])), track)
  }

  lemma ConsiderEffect(dist: Metric, v: View, ask: Ask, g: GeoSet, st: Scan, c: Candidate)
    requires !st.failed && c.userId in g && c.position == g[c.userId]
    ensures var st1 := Consider(dist, v, ask, NoFaults, st, c);
            && !st1.failed
            && (!Eligible(dist, v, ask, g, c.userId) ==> st1 == st)
            && (Eligible(dist, v, ask, g, c.userId) ==>
                  st1.survivors == if PairFree(st.counters, ask, c.userId)
                                   then st.survivors + [SurvivorOf(dist, v, ask, c.position, c.userId)]
                                   else st.survivors)
    ensures var st1 := Consider(dist, v, ask, NoFaults, st, c);
            forall key :: RateLimiter.Hits(st1.counters, key, ask.now)
              == RateLimiter.Hits(st.counters, key, ask.now)
                 + if Eligible(dist, v, ask, g, c.userId) && key == PairKey(ask.requester, c.userId) then 1 else 0
  {
    RateLimiter.AllowedExactlyBelowLimit(st.counters, ask.now, PairKey(ask.requester, c.userId), PAIR_LIMIT,
                                         PAIR_WINDOW, RateLimiter.NoFault);
  }

  /** After the filter loop over `raw`, one more pair budget is used for every eligible hit, and only for those. */
  ghost predicate ChargesOk(dist: Metric, v: View, ask: Ask, g: GeoSet, m: Counters, raw: seq<Candidate>, st: Scan) {
    && (forall t :: RateLimiter.Hits(st.counters, PairKey(ask.requester, t), ask.now)
                 == RateLimiter.Hits(m, PairKey(ask.requester, t), ask.now)
                    + if Hit(raw, t) && Eligible(dist, v, ask, g, t) then 1 else 0)
    && (forall q :: RateLimiter.Hits(st.counters, DailyKey(q), ask.now) == RateLimiter.Hits(m, DailyKey(q), ask.now))
  }

  /** The survivors are the eligible hits whose pair budget was free. */
  ghost predicate SurvivorsOk(dist: Metric, v: View, ask: Ask, g: GeoSet, m: Counters, raw: seq<Candidate>,
                              survivors: seq<Survivor>) {
    && (forall t :: Survives(survivors, t) <==>
          Hit(raw, t) && Eligible(dist, v, ask, g, t) && PairFree(m, ask, t))
    && (forall s :: s in survivors ==> s.userId in g && s == SurvivorOf(dist, v, ask, g[s.userId], s.userId))
    && (forall i, j :: 0 <= i < j < |survivors| ==> survivors[i].userId != survivors[j].userId)
  }

  lemma HitSnoc(init: seq<Candidate>, c: Candidate, t: string)
    ensures Hit(init + [c], t) <==> Hit(init, t) || t == c.userId
  {
    assert c in init + [c];
  }

  lemma LastIsNew(raw: seq<Candidate>)
    requires raw != [] && Distinct(raw)
    ensures !Hit(raw[..|raw| - 1], raw[|raw| - 1].userId) && Distinct(raw[..|raw| - 1])
  {
  }

  lemma ChargesStep(dist: Metric, v: View, ask: Ask, g: GeoSet, m: Counters, init: seq<Candidate>, c: Candidate, st: Scan)
    requires ChargesOk(dist, v, ask, g, m, init, st) && !st.failed
    requires !Hit(init, c.userId) && c.userId in g && c.position == g[c.userId]
    ensures ChargesOk(dist, v, ask, g, m, init + [c], Consider(dist, v, ask, NoFaults, st, c))
  {
    ConsiderEffect(dist, v, ask, g, st, c);
    var st1 := Consider(dist, v, ask, NoFaults, st, c);
    forall t
      ensures RateLimiter.Hits(st1.counters, PairKey(ask.requester, t), ask.now)
           == RateLimiter.Hits(m, PairKey(ask.requester, t), ask.now)
              + if Hit(init + [c], t) && Eligible(dist, v, ask, g, t) then 1 else 0
    {
      HitSnoc(init, c, t);
      if PairKey(ask.requester, t) == PairKey(ask.requester, c.userId) {
        PairKeysOfOneRequesterDiffer(ask.requester, t, c.userId);
      }
    }
    forall q
      ensures RateLimiter.Hits(st1.counters, DailyKey(q), ask.now) == RateLimiter.Hits(m, DailyKey(q), ask.now)
    {
      PairAndDailyKeysDiffer(ask.requester, c.userId, q);
    }
  }

  lemma SurvivorsStep(dist: Metric, v: View, ask: Ask, g: GeoSet, m: Counters, init: seq<Candidate>, c: Candidate, st: Scan)
    requires SurvivorsOk(dist, v, ask, g, m, init, st.survivors)
    requires ChargesOk(dist, v, ask, g, m, init, st) && !st.failed
    requires !Hit(init, c.userId) && c.userId in g && c.position == g[c.userId]
    ensures SurvivorsOk(dist, v, ask, g, m, init + [c], Consider(dist, v, ask, NoFaults, st, c).survivors)
  {
    ConsiderEffect(dist, v, ask, g, st, c);
    var before, after := st.survivors, Consider(dist, v, ask, NoFaults, st, c).survivors;
    var s := SurvivorOf(dist, v, ask, c.position, c.userId);
    assert !Survives(before, c.userId);
    forall t
      ensures Survives(after, t) <==> Hit(init + [c], t) && Eligible(dist, v, ask, g, t) && PairFree(m, ask, t)
    {
      HitSnoc(init, c, t);
      if after != before {
        assert s in after;
        assert Survives(after, t) <==> Survives(before, t) || t == c.userId;
      }
    }
    assert forall i :: 0 <= i < |before| ==> before[i] in before && before[i].userId != c.userId;
  }

  /** The filter loop, without failures: who survives, and which budgets were charged. */
  lemma {:induction false} ScanFacts(dist: Metric, v: View, ask: Ask, g: GeoSet, m: Counters, raw: seq<Candidate>)
    requires From(raw, g) && Distinct(raw)
    ensures var st := ScanAll(dist, v, ask, NoFaults, m, raw);
            !st.failed && ChargesOk(dist, v, ask, g, m, raw, st) && SurvivorsOk(dist, v, ask, g, m, raw, st.survivors)
  {
    if raw != [] {
      var init, c := raw[..|raw| - 1], raw[|raw| - 1];
      LastIsNew(raw);
      ScanFacts(dist, v, ask, g, m, init);
      var st := ScanAll(dist, v, ask, NoFaults, m, init);
      assert raw == init + [c] && c in raw;
      ConsiderEffect(dist, v, ask, g, st, c);
      ChargesStep(dist, v, ask, g, m, init, c, st);
      SurvivorsStep(dist, v, ask, g, m, init, c, st);
    }
  }

  // ----- the report -----

  function Entries(ask: Ask, results: seq<NearbyResult>): seq<AuditLogEntry> {
    seq(|results|, i requires 0 <= i < |results| => EntryFor(ask, results[i]))
  }

  /** Whatever fails, the entries written so far are those of the results gathered so far, in order. */
  lemma {:induction false} ReportAudits(ask: Ask, f: Faults, details: map<string, Detail>,
                                        users: map<string, Profile>, survivors: seq<Survivor>)
    ensures var report := ReportAll(ask, f, details, users, survivors);
            && report.audit == Entries(ask, report.results)
            && forall r :: r in report.results ==> !r.bucket.BucketNone?
  {
    if survivors != [] {
      ReportAudits(ask, f, details, users, survivors[..|survivors| - 1]);
    }
  }

  /** Audit matches disclosure: a successful query appends exactly one entry per returned result, same target,
      same bucket, same order, and no result carries BucketNone. This holds whatever fails along the way. */
  lemma AuditMatchesDisclosure(dist: Metric, v: View, ask: Ask, f: Faults, m: Counters, g: GeoSet, d: DetailKeys,
                               names: seq<string>)
    ensures var o := Query(dist, v, ask, f, m, g, d, names);
            o.result.Ok? ==> o.appended == Entries(ask, o.result.value)
                             && forall r :: r in o.result.value ==> !r.bucket.BucketNone?
  {
    var raw := Candidates(names, g, ask.requester);
    var m1 := RateLimiter.AllowCounters(m, ask.now, DailyKey(ask.requester), DAILY_WINDOW, f.daily);
    var survivors := ScanAll(dist, v, ask, f, m1, raw).survivors;
    ReportAudits(ask, f, Hydrated(IdsOf(survivors), d, ask.now), v.users, survivors);
  }

  predicate Reported(details: map<string, Detail>, s: Survivor) {
    s.userId in details && !BucketFor(s.dist).BucketNone?
  }

  /** The results are the reported survivors, each with its own content. */
  ghost predicate ResultsOk(details: map<string, Detail>, users: map<string, Profile>, survivors: seq<Survivor>,
                            results: seq<NearbyResult>) {
    && (forall s :: s in survivors && Reported(details, s) ==> ResultFor(s, details[s.userId], users) in results)
    && (forall r :: r in results ==>
          exists s :: s in survivors && Reported(details, s) && r == ResultFor(s, details[s.userId], users))
  }

  ghost predicate Unique(results: seq<NearbyResult>) {
    forall i, j :: 0 <= i < j < |results| ==> results[i].userId != results[j].userId
  }

  lemma ReportStep(ask: Ask, details: map<string, Detail>, users: map<string, Profile>, init: seq<Survivor>,
                   s: Survivor, st: Report)
    requires !st.failed && ResultsOk(details, users, init, st.results) && Unique(st.results)
    requires forall b :: b in init ==> b.userId != s.userId
    ensures var st1 := ReportOne(ask, NoFaults, details, users, st, s);
            !st1.failed && ResultsOk(details, users, init + [s], st1.results) && Unique(st1.results)
  {
    var before, after := st.results, ReportOne(ask, NoFaults, details, users, st, s).results;
    assert forall r :: r in before ==> r.userId != s.userId;
    assert forall i :: 0 <= i < |before| ==> before[i] in before;
    assert forall r :: r in after ==> r in before || (Reported(details, s) && r == ResultFor(s, details[s.userId], users));
    assert s in init + [s];
    forall r | r in after
      ensures exists b :: b in init + [s] && Reported(details, b) && r == ResultFor(b, details[b.userId], users)
    {
      if r in before {
        var b :| b in init && Reported(details, b) && r == ResultFor(b, details[b.userId], users);
        assert b in init + [s];
      }
    }
  }

  lemma {:induction false} ReportFacts(ask: Ask, details: map<string, Detail>, users: map<string, Profile>,
                                       survivors: seq<Survivor>)
    requires forall i, j :: 0 <= i < j < |survivors| ==> survivors[i].userId != survivors[j].userId
    ensures var report := ReportAll(ask, NoFaults, details, users, survivors);
            !report.failed && ResultsOk(details, users, survivors, report.results) && Unique(report.results)
  {
    if survivors != [] {
      var init, s := survivors[..|survivors| - 1], survivors[|survivors| - 1];
      ReportFacts(ask, details, users, init);
      assert survivors == init + [s];
      ReportStep(ask, details, users, init, s, ReportAll(ask, NoFaults, details, users, init));
    }
  }

  // ----- the index against the full scan -----

  lemma IndexAgreesWithoutFaults(dist: Metric, v: View, ask: Ask, m: Counters, g: GeoSet, d: DetailKeys,
                                names: seq<string>)
    requires IsSearchReply(dist, g, ask.pos, SearchRadius(ask), names)
    requires DailyFree(m, ask)
    ensures var o := Query(dist, v, ask, NoFaults, m, g, d, names);
            && o.result.Ok?
            && Unique(o.result.value)
            && (forall t :: Listed(o.result.value, t) <==> Visible(dist, v, ask, g, d, t) && PairFree(m, ask, t))
            && (forall r :: r in o.result.value ==>
                  r.userId in g && r.userId in d && r == Disclosed(dist, v, ask, g, d, r.userId))
  {
    var raw := Candidates(names, g, ask.requester);
    SearchFindsEligible(dist, v, ask, g, names);
    if raw == [] {
      assert forall t :: !Hit(raw, t);
    } else {
      AnswerIsReport(dist, v, ask, m, g, d, names);
      ScanFacts(dist, v, ask, g, DailyCharged(m, ask), raw);
      var survivors := ScanAll(dist, v, ask, NoFaults, DailyCharged(m, ask), raw).survivors;
      ReportFacts(ask, Hydrated(IdsOf(survivors), d, ask.now), v.users, survivors);
      ResultsAreVisible(dist, v, ask, g, d, m, raw, survivors);
    }
  }

  /** Without failures the answer is the report of the survivors. */
  lemma AnswerIsReport(dist: Metric, v: View, ask: Ask, m: Counters, g: GeoSet, d: DetailKeys, names: seq<string>)
    requires IsSearchReply(dist, g, ask.pos, SearchRadius(ask), names) && DailyFree(m, ask)
    requires Candidates(names, g, ask.requester) != []
    ensures var raw := Candidates(names, g, ask.requester);
            var survivors := ScanAll(dist, v, ask, NoFaults, DailyCharged(m, ask), raw).survivors;
            var report := ReportAll(ask, NoFaults, Hydrated(IdsOf(survivors), d, ask.now), v.users, survivors);
            Query(dist, v, ask, NoFaults, m, g, d, names).result == Ok(report.results)
  {
    var raw := Candidates(names, g, ask.requester);
    SearchFindsEligible(dist, v, ask, g, names);
    AfterSearchShape(dist, v, ask, m, d, raw);
    ScanFacts(dist, v, ask, g, DailyCharged(m, ask), raw);
    var survivors := ScanAll(dist, v, ask, NoFaults, DailyCharged(m, ask), raw).survivors;
    ReportFacts(ask, Hydrated(IdsOf(survivors), d, ask.now), v.users, survivors);
  }

  /** With the daily budget open a query that has an answer, whatever fails along the way, returns exactly the users of
      the whole index that are visible and whose pair budget is free: each once, with the right content. Searching only
      the padded radius loses nobody. And with nothing failing it has an answer. */
  lemma IndexAgreesWithFullScan(dist: Metric, v: View, ask: Ask, f: Faults, m: Counters, g: GeoSet, d: DetailKeys,
                                names: seq<string>)
    requires IsSearchReply(dist, g, ask.pos, SearchRadius(ask), names)
    requires DailyFree(m, ask)
    ensures f == NoFaults ==> Query(dist, v, ask, f, m, g, d, names).result.Ok?
    ensures var o := Query(dist, v, ask, f, m, g, d, names);
            o.result.Ok? ==>
              && Unique(o.result.value)
              && (forall t :: Listed(o.result.value, t) <==> Visible(dist, v, ask, g, d, t) && PairFree(m, ask, t))
              && (forall r :: r in o.result.value ==>
                    r.userId in g && r.userId in d && r == Disclosed(dist, v, ask, g, d, r.userId))
  {
    IndexAgreesWithoutFaults(dist, v, ask, m, g, d, names);
    if Query(dist, v, ask, f, m, g, d, names).result.Ok? {
      AnswerAsWithoutFaults(dist, v, ask, f, m, g, d, names);
    }
  }

  function DailyCharged(m: Counters, ask: Ask): Counters {
    RateLimiter.AllowCounters(m, ask.now, DailyKey(ask.requester), DAILY_WINDOW, RateLimiter.NoFault)
  }

  lemma ChargingDailyKeepsPairs(m: Counters, ask: Ask)
    ensures forall t :: RateLimiter.Hits(DailyCharged(m, ask), PairKey(ask.requester, t), ask.now)
                     == RateLimiter.Hits(m, PairKey(ask.requester, t), ask.now)
    ensures RateLimiter.AllowVerdict(m, ask.now, DailyKey(ask.requester), DAILY_LIMIT, DAILY_WINDOW,
                                     RateLimiter.NoFault).Ok?
    ensures DailyFree(m, ask) <==>
              RateLimiter.AllowVerdict(m, ask.now, DailyKey(ask.requester), DAILY_LIMIT, DAILY_WINDOW,
                                       RateLimiter.NoFault).value.allowed
  {
    RateLimiter.AllowedExactlyBelowLimit(m, ask.now, DailyKey(ask.requester), DAILY_LIMIT, DAILY_WINDOW,
                                         RateLimiter.NoFault);
    forall t
      ensures PairKey(ask.requester, t) != DailyKey(ask.requester)
    {
      PairAndDailyKeysDiffer(ask.requester, t, ask.requester);
    }
  }

  /** Every eligible user of the whole index is among the hits. */
  lemma SearchFindsEligible(dist: Metric, v: View, ask: Ask, g: GeoSet, names: seq<string>)
    requires IsSearchReply(dist, g, ask.pos, SearchRadius(ask), names)
    ensures var raw := Candidates(names, g, ask.requester);
            && From(raw, g) && Distinct(raw)
            && (forall t :: Hit(raw, t) <==>
                  t in g && t != ask.requester && dist(ask.pos, g[t]) <= SearchRadius(ask))
            && (forall t :: Eligible(dist, v, ask, g, t) ==> Hit(raw, t))
  {
    var raw := Candidates(names, g, ask.requester);
    CandidatesAre(names, g, ask.requester);
    CandidatesDistinct(names, g, ask.requester);
    forall t | t in g && t != ask.requester && dist(ask.pos, g[t]) <= SearchRadius(ask)
      ensures Hit(raw, t)
    {
      assert Candidate(t, g[t]) in raw;
    }
  }

  lemma HydratedAre(survivors: seq<Survivor>, d: DetailKeys, now: int)
    ensures var details := Hydrated(IdsOf(survivors), d, now);
            && (forall t :: t in details <==> Survives(survivors, t) && Present(d, t, now))
            && (forall t :: t in details ==> details[t] == d[t].detail)
  {
    var ids := IdsOf(survivors);
    forall t
      ensures t in ids <==> Survives(survivors, t)
    {
      if t in ids {
        var i :| 0 <= i < |ids| && ids[i] == t;
        assert survivors[i] in survivors;
      }
      if s :| s in survivors && s.userId == t {
        var i :| 0 <= i < |survivors| && survivors[i] == s;
        assert ids[i] == t;
      }
    }
  }

  lemma VisibleIsListed(survivors: seq<Survivor>, details: map<string, Detail>, results: seq<NearbyResult>,
                        users: map<string, Profile>, t: string)
    requires Survives(survivors, t)
    requires forall s :: s in survivors && s.userId == t ==>
               Reported(details, s) && ResultFor(s, details[t], users) in results
    ensures Listed(results, t)
  {
    var s :| s in survivors && s.userId == t;
    assert ResultFor(s, details[t], users) in results;
  }

  lemma ListedSurvives(survivors: seq<Survivor>, details: map<string, Detail>, results: seq<NearbyResult>,
                       users: map<string, Profile>, t: string)
    requires ResultsOk(details, users, survivors, results) && Listed(results, t)
    ensures exists s :: s in survivors && s.userId == t && Reported(details, s)
  {
    var r :| r in results && r.userId == t;
    var s :| s in survivors && Reported(details, s) && r == ResultFor(s, details[s.userId], users);
    assert s.userId == t;
  }

  lemma ResultsAreVisible(dist: Metric, v: View, ask: Ask, g: GeoSet, d: DetailKeys, m: Counters,
                          raw: seq<Candidate>, survivors: seq<Survivor>)
    requires SurvivorsOk(dist, v, ask, g, DailyCharged(m, ask), raw, survivors)
    requires forall t :: Eligible(dist, v, ask, g, t) ==> Hit(raw, t)
    ensures var details := Hydrated(IdsOf(survivors), d, ask.now);
            var results := ReportAll(ask, NoFaults, details, v.users, survivors).results;
            && (forall t :: Listed(results, t) <==> Visible(dist, v, ask, g, d, t) && PairFree(m, ask, t))
            && (forall r :: r in results ==>
                  r.userId in g && r.userId in d && r == Disclosed(dist, v, ask, g, d, r.userId))
  {
    var details := Hydrated(IdsOf(survivors), d, ask.now);
    ChargingDailyKeepsPairs(m, ask);
    HydratedAre(survivors, d, ask.now);
    ReportFacts(ask, details, v.users, survivors);
    var results := ReportAll(ask, NoFaults, details, v.users, survivors).results;
    forall t
      ensures Listed(results, t) <==> Visible(dist, v, ask, g, d, t) && PairFree(m, ask, t)
    {
      if Visible(dist, v, ask, g, d, t) && PairFree(m, ask, t) {
        VisibleIsListed(survivors, details, results, v.users, t);
      }
      if Listed(results, t) {
        ListedSurvives(survivors, details, results, v.users, t);
      }
    }
  }

  lemma BudgetsChargedWithoutFaults(dist: Metric, v: View, ask: Ask, m: Counters, g: GeoSet, d: DetailKeys,
                                    names: seq<string>, t: string)
    requires IsSearchReply(dist, g, ask.pos, SearchRadius(ask), names)
    requires DailyFree(m, ask)
    ensures var o := Query(dist, v, ask, NoFaults, m, g, d, names);
            && RateLimiter.Hits(o.counters, PairKey(ask.requester, t), ask.now)
               == RateLimiter.Hits(m, PairKey(ask.requester, t), ask.now)
                  + (if Eligible(dist, v, ask, g, t) then 1 else 0)
            && RateLimiter.Hits(o.counters, DailyKey(ask.requester), ask.now)
               == RateLimiter.Hits(m, DailyKey(ask.requester), ask.now)
                  + (if Candidates(names, g, ask.requester) != [] then 1 else 0)
  {
    var raw := Candidates(names, g, ask.requester);
    SearchFindsEligible(dist, v, ask, g, names);
    if raw == [] {
      assert !Hit(raw, t);
    } else {
      QueryCounters(dist, v, ask, m, g, d, names);
      ScanFacts(dist, v, ask, g, DailyCharged(m, ask), raw);
      DailyChargedHits(m, ask, t);
    }
  }

  /** The budgets an answered query uses up: its own daily one if the search found anybody, and, as long as that was open,
      one pair budget for every eligible user of the index, live or stale, shown or not. */
  lemma BudgetsCharged(dist: Metric, v: View, ask: Ask, f: Faults, m: Counters, g: GeoSet, d: DetailKeys,
                       names: seq<string>, t: string)
    requires IsSearchReply(dist, g, ask.pos, SearchRadius(ask), names)
    requires Query(dist, v, ask, f, m, g, d, names).result.Ok?
    ensures var o := Query(dist, v, ask, f, m, g, d, names);
            && RateLimiter.Hits(o.counters, PairKey(ask.requester, t), ask.now)
               == RateLimiter.Hits(m, PairKey(ask.requester, t), ask.now)
                  + (if DailyFree(m, ask) && Eligible(dist, v, ask, g, t) then 1 else 0)
            && RateLimiter.Hits(o.counters, DailyKey(ask.requester), ask.now)
               == RateLimiter.Hits(m, DailyKey(ask.requester), ask.now)
                  + (if Candidates(names, g, ask.requester) != [] then 1 else 0)
  {
    AnswerAsWithoutFaults(dist, v, ask, f, m, g, d, names);
    if DailyFree(m, ask) {
      BudgetsChargedWithoutFaults(dist, v, ask, m, g, d, names, t);
    } else {
      UsedUpAnswersNobody(dist, v, ask, m, g, d, names);
      DailyChargedHits(m, ask, t);
    }
  }

  /** With the daily budget used up a query is counted, if the search found anybody, and does nothing else. */
  lemma UsedUpAnswersNobody(dist: Metric, v: View, ask: Ask, m: Counters, g: GeoSet, d: DetailKeys, names: seq<string>)
    requires !DailyFree(m, ask)
    ensures Query(dist, v, ask, NoFaults, m, g, d, names)
            == Outcome(if Candidates(names, g, ask.requester) == [] then m else DailyCharged(m, ask), [], Ok([]))
  {
    if Candidates(names, g, ask.requester) != [] {
      AfterSearchShape(dist, v, ask, m, d, Candidates(names, g, ask.requester));
    }
  }

  /** Without failures, an answered search with an open daily budget is the report of its survivors. */
  lemma AfterSearchShape(dist: Metric, v: View, ask: Ask, m: Counters, d: DetailKeys, raw: seq<Candidate>)
    requires raw != []
    ensures var o := AfterSearch(dist, v, ask, NoFaults, m, d, raw);
            var scan := ScanAll(dist, v, ask, NoFaults, DailyCharged(m, ask), raw);
            var report := ReportAll(ask, NoFaults, Hydrated(IdsOf(scan.survivors), d, ask.now), v.users, scan.survivors);
            o == if !DailyFree(m, ask) then Outcome(DailyCharged(m, ask), [], Ok([]))
                 else if scan.failed then Failure(scan.counters, [])
                 else if report.failed then Failure(scan.counters, report.audit)
                 else Outcome(scan.counters, report.audit, Ok(report.results))
  {
    ChargingDailyKeepsPairs(m, ask);
  }

  /** The counters a query leaves are those of its scan. */
  lemma QueryCounters(dist: Metric, v: View, ask: Ask, m: Counters, g: GeoSet, d: DetailKeys, names: seq<string>)
    requires IsSearchReply(dist, g, ask.pos, SearchRadius(ask), names) && DailyFree(m, ask)
    requires Candidates(names, g, ask.requester) != []
    ensures Query(dist, v, ask, NoFaults, m, g, d, names).counters
            == ScanAll(dist, v, ask, NoFaults, DailyCharged(m, ask), Candidates(names, g, ask.requester)).counters
  {
    AfterSearchShape(dist, v, ask, m, d, Candidates(names, g, ask.requester));
  }

  lemma DailyChargedHits(m: Counters, ask: Ask, t: string)
    ensures RateLimiter.Hits(DailyCharged(m, ask), PairKey(ask.requester, t), ask.now)
            == RateLimiter.Hits(m, PairKey(ask.requester, t), ask.now)
    ensures RateLimiter.Hits(DailyCharged(m, ask), DailyKey(ask.requester), ask.now)
            == RateLimiter.Hits(m, DailyKey(ask.requester), ask.now) + 1
    ensures DailyKey(ask.requester) != PairKey(ask.requester, t)
  {
    PairAndDailyKeysDiffer(ask.requester, t, ask.requester);
    RateLimiter.AllowedExactlyBelowLimit(m, ask.now, DailyKey(ask.requester), DAILY_LIMIT, DAILY_WINDOW,
                                         RateLimiter.NoFault);
  }

  /** A member of the GEO set whose detail expired is never shown, and costs the asker its pair budget as long as the
      daily one is open. */
  lemma StaleMemberChargedNotShown(dist: Metric, v: View, ask: Ask, f: Faults, m: Counters, g: GeoSet, d: DetailKeys,
                                   names: seq<string>, t: string)
    requires IsSearchReply(dist, g, ask.pos, SearchRadius(ask), names)
    requires Eligible(dist, v, ask, g, t) && !Present(d, t, ask.now)
    requires Query(dist, v, ask, f, m, g, d, names).result.Ok?
    ensures var o := Query(dist, v, ask, f, m, g, d, names);
            !Listed(o.result.value, t) && (DailyFree(m, ask) ==> !PairFree(o.counters, ask, t))
  {
    if DailyFree(m, ask) {
      IndexAgreesWithFullScan(dist, v, ask, f, m, g, d, names);
    } else {
      AnswerAsWithoutFaults(dist, v, ask, f, m, g, d, names);
      UsedUpAnswersNobody(dist, v, ask, m, g, d, names);
    }
    BudgetsCharged(dist, v, ask, f, m, g, d, names, t);
  }

  // ----- frames -----

  /** Without an active consent a frame is refused with the matching error and has no effect at all: no index write,
      no budget, no audit entry. */
  lemma NoConsentNoEffect(dist: Metric, v: View, user: string, jittered: Option<GeoPosition>, trackId: string, ttl: Ttl,
                          f: Faults, write: GeoStore.Fault, touch: GeoStore.Fault, m: Counters, g: GeoSet,
                          d: DetailKeys, now: int, names: seq<string>)
    requires !SettingsOf(v.rows, user).HasActiveConsent(now) && !f.settings
    ensures var e := if SettingsOf(v.rows, user).consentEnabled then ConsentExpired else ConsentRequired;
            && UpdateFrame(dist, v, user, jittered, trackId, ttl, f, write, m, g, d, now, names)
               == FrameOutcome(g, d, Outcome(m, [], Err(e)))
            && HeartbeatFrame(dist, v, user, ttl, f, touch, m, g, d, now, names)
               == FrameOutcome(g, d, Outcome(m, [], Err(e)))
  {
  }

  lemma IndexWriteIsOwn(g: GeoSet, d: DetailKeys, e: PresenceEntry, hidden: bool, now: int, ttl: Ttl,
                        fault: GeoStore.Fault)
    ensures var g', d' := GeoAfterUpdate(g, e, hidden, fault), DetailsAfterUpdate(d, e, hidden, now, ttl, fault);
            && g' - {e.userId} == g - {e.userId} && d' - {e.userId} == d - {e.userId}
            && (fault.NoFault? ==>
                  if hidden then e.userId !in g' && e.userId !in d'
                  else e.userId in g' && g'[e.userId] == e.position && e.userId in d'
                       && d'[e.userId] == Stored(e.detail, now + ttl))
  {
  }

  /** An update frame that works leaves the user live at the jittered position with the track, or, if hidden, absent
      from both structures; and nobody else's entry changes, whatever fails. */
  lemma UpdateMovesOnlyTheAsker(dist: Metric, v: View, user: string, jittered: Option<GeoPosition>, trackId: string,
                                ttl: Ttl, f: Faults, write: GeoStore.Fault, m: Counters, g: GeoSet, d: DetailKeys,
                                now: int, names: seq<string>)
    ensures var o := UpdateFrame(dist, v, user, jittered, trackId, ttl, f, write, m, g, d, now, names);
            var row := SettingsOf(v.rows, user);
            && o.geo - {user} == g - {user} && o.details - {user} == d - {user}
            && (o.query.result.Ok? && write.NoFault? ==>
                  if row.Hidden() then user !in o.geo && user !in o.details
                  else jittered.Some? && user in o.geo && o.geo[user] == jittered.value && Present(o.details, user, now)
                       && o.details[user].detail.trackId == trackId && o.details[user].deadline == now + ttl)
  {
    if jittered.Some? {
      var row := SettingsOf(v.rows, user);
      IndexWriteIsOwn(g, d, OwnEntry(user, row, jittered.value, trackId, now), row.Hidden(), now, ttl, write);
    }
  }

  /** A heartbeat never moves anybody: at most the asker's own detail key lives longer, with the same detail. */
  lemma HeartbeatMovesNobody(dist: Metric, v: View, user: string, ttl: Ttl, f: Faults, touch: GeoStore.Fault,
                             m: Counters, g: GeoSet, d: DetailKeys, now: int, names: seq<string>)
    ensures var o := HeartbeatFrame(dist, v, user, ttl, f, touch, m, g, d, now, names);
            && o.geo == g && o.details.Keys == d.Keys && o.details - {user} == d - {user}
            && (user in d ==> o.details[user].detail == d[user].detail)
  {
  }
}
