/** When a query fails: exactly when a dependency fails that the query comes to ask, stated over the index and the
    tables. */
module NearbyFailures {
  import opened Wrappers
  import opened RedisCounters
  import opened RedisGeo
  import opened Presence
  import opened Database
  import opened GeoStore
  import opened Nearby
  import opened NearbyFaults
  import opened NearbyTheorems
  import opened NearbyCounters
  import RateLimiter

  /** A limiter call on a key fails: INCR does, or EXPIRE does and is needed. */
  predicate LimiterFails(m: Counters, key: string, now: int, fault: RateLimiter.Fault) {
    fault.IncrFails? || (fault.ExpireFails? && RateLimiter.Hits(m, key, now) == 0)
  }

  lemma VerdictFailsExactly(m: Counters, now: int, key: string, limit: int, window: int, fault: RateLimiter.Fault)
    ensures RateLimiter.AllowVerdict(m, now, key, limit, window, fault).Err? <==> LimiterFails(m, key, now, fault)
  {
  }

  /** What the filters ask about a prospect before its budget: its settings allow it to be seen by this asker. */
  predicate Seen(v: View, ask: Ask, t: string) {
    var row := SettingsOf(v.rows, t);
    !row.paused && row.visibility != VISIBILITY_INVISIBLE && row.HasActiveConsent(ask.now)
  }

  predicate FriendsOk(v: View, ask: Ask, t: string) {
    SettingsOf(v.rows, t).visibility == VISIBILITY_FRIENDS_ONLY ==> MutualFollow(v.follows, ask.requester, t)
  }

  predicate WithinBoth(dist: Metric, v: View, ask: Ask, t: string, pos: GeoPosition) {
    dist(ask.pos, pos) <= ask.row.radiusM as real && dist(ask.pos, pos) <= SettingsOf(v.rows, t).radiusM as real
  }

  /** One of the questions about a prospect fails that is asked: about blocks first, then the settings, the follows and
      the pair's budget, each as long as the answers so far let it through. */
  predicate QuestionFails(dist: Metric, v: View, ask: Ask, f: Faults, m: Counters, t: string, pos: GeoPosition) {
    || t in f.block
    || (!BlockedEitherWay(v.blocks, ask.requester, t)
        && (|| t in f.target
            || (Seen(v, ask, t)
                && (|| t in f.follow
                    || (FriendsOk(v, ask, t) && WithinBoth(dist, v, ask, t, pos)
                        && LimiterFails(m, PairKey(ask.requester, t), ask.now, PairFault(f, t)))))))
  }

  lemma ConsiderFailsExactly(dist: Metric, v: View, ask: Ask, f: Faults, st: Scan, c: Candidate)
    requires !st.failed && c.userId != ask.requester
    ensures Consider(dist, v, ask, f, st, c).failed
            <==> QuestionFails(dist, v, ask, f, st.counters, c.userId, c.position)
  {
    VerdictFailsExactly(st.counters, ask.now, PairKey(ask.requester, c.userId), PAIR_LIMIT, PAIR_WINDOW,
                        PairFault(f, c.userId));
  }

  /** The questions about one prospect leave the budgets of the others alone. */
  lemma ConsiderLeavesOthers(dist: Metric, v: View, ask: Ask, f: Faults, st: Scan, c: Candidate, t: string)
    requires t != c.userId
    ensures RateLimiter.Hits(Consider(dist, v, ask, f, st, c).counters, PairKey(ask.requester, t), ask.now)
            == RateLimiter.Hits(st.counters, PairKey(ask.requester, t), ask.now)
  {
    if PairKey(ask.requester, t) == PairKey(ask.requester, c.userId) {
      PairKeysOfOneRequesterDiffer(ask.requester, t, c.userId);
    }
  }

  lemma SameHitsFailAlike(dist: Metric, v: View, ask: Ask, f: Faults, a: Counters, b: Counters, t: string,
                          pos: GeoPosition)
    requires RateLimiter.Hits(a, PairKey(ask.requester, t), ask.now)
          == RateLimiter.Hits(b, PairKey(ask.requester, t), ask.now)
    ensures QuestionFails(dist, v, ask, f, a, t, pos) == QuestionFails(dist, v, ask, f, b, t, pos)
  {
  }

  predicate OneFails(dist: Metric, v: View, ask: Ask, f: Faults, m: Counters, raw: seq<Candidate>) {
    exists c :: c in raw && QuestionFails(dist, v, ask, f, m, c.userId, c.position)
  }

  ghost predicate NotAskedYet(ask: Ask, m: Counters, raw: seq<Candidate>, st: Scan) {
    forall t :: !Hit(raw, t) ==>
      RateLimiter.Hits(st.counters, PairKey(ask.requester, t), ask.now)
      == RateLimiter.Hits(m, PairKey(ask.requester, t), ask.now)
  }

  lemma NotAskedYetStep(dist: Metric, v: View, ask: Ask, f: Faults, m: Counters, init: seq<Candidate>, c: Candidate,
                        st: Scan)
    requires NotAskedYet(ask, m, init, st)
    ensures NotAskedYet(ask, m, init + [c], Consider(dist, v, ask, f, st, c))
  {
    forall t | !Hit(init + [c], t)
      ensures RateLimiter.Hits(Consider(dist, v, ask, f, st, c).counters, PairKey(ask.requester, t), ask.now)
           == RateLimiter.Hits(m, PairKey(ask.requester, t), ask.now)
    {
      HitSnoc(init, c, t);
      ConsiderLeavesOthers(dist, v, ask, f, st, c, t);
    }
  }

  /** The filter loop fails exactly if a question about one of the prospects does; the order plays no part. */
  lemma {:induction false} ScanFailsExactly(dist: Metric, v: View, ask: Ask, f: Faults, m: Counters,
                                            raw: seq<Candidate>)
    requires Distinct(raw) && forall c :: c in raw ==> c.userId != ask.requester
    ensures ScanAll(dist, v, ask, f, m, raw).failed <==> OneFails(dist, v, ask, f, m, raw)
    ensures !ScanAll(dist, v, ask, f, m, raw).failed ==> NotAskedYet(ask, m, raw, ScanAll(dist, v, ask, f, m, raw))
  {
    if raw != [] {
      var init, c := raw[..|raw| - 1], raw[|raw| - 1];
      LastIsNew(raw);
      assert raw == init + [c] && c in raw;
      assert forall b :: b in init ==> b in raw;
      ScanFailsExactly(dist, v, ask, f, m, init);
      var st := ScanAll(dist, v, ask, f, m, init);
      OneFailsSnoc(dist, v, ask, f, m, init, c);
      if !st.failed {
        SameHitsFailAlike(dist, v, ask, f, st.counters, m, c.userId, c.position);
        ConsiderFailsExactly(dist, v, ask, f, st, c);
        NotAskedYetStep(dist, v, ask, f, m, init, c, st);
      }
    }
  }

  lemma OneFailsSnoc(dist: Metric, v: View, ask: Ask, f: Faults, m: Counters, init: seq<Candidate>, c: Candidate)
    ensures OneFails(dist, v, ask, f, m, init + [c])
            <==> OneFails(dist, v, ask, f, m, init) || QuestionFails(dist, v, ask, f, m, c.userId, c.position)
  {
    assert c in init + [c];
    if OneFails(dist, v, ask, f, m, init) {
      var b :| b in init && QuestionFails(dist, v, ask, f, m, b.userId, b.position);
      assert b in init + [c];
    }
  }

  // ----- after the filters -----

  /** The reporting loop fails exactly if the entry of somebody who is to be reported cannot be written. */
  lemma {:induction false} ReportFailsExactly(ask: Ask, f: Faults, details: map<string, Detail>,
                                              users: map<string, Profile>, survivors: seq<Survivor>)
    ensures ReportAll(ask, f, details, users, survivors).failed
            <==> exists s :: s in survivors && Reported(details, s) && s.userId in f.audit
  {
    if survivors != [] {
      var init, s := survivors[..|survivors| - 1], survivors[|survivors| - 1];
      assert survivors == init + [s] && s in survivors;
      ReportFailsExactly(ask, f, details, users, init);
      if b :| b in init && Reported(details, b) && b.userId in f.audit {
        assert b in survivors;
      }
    }
  }

  /** A prospect that survives the filters. */
  predicate Passing(dist: Metric, v: View, ask: Ask, m: Counters, g: GeoSet, t: string) {
    Eligible(dist, v, ask, g, t) && PairFree(m, ask, t)
  }

  /** Hydrating and reporting fail: the details cannot be read, or the profiles, or an entry cannot be written. */
  predicate TellingFails(dist: Metric, v: View, ask: Ask, f: Faults, m: Counters, g: GeoSet, d: DetailKeys) {
    exists t :: t in g && Passing(dist, v, ask, m, g, t)
                && (|| f.detail.FirstFails?
                    || (f.profiles && Named(v, ask.requester, t))
                    || (t in f.audit && Visible(dist, v, ask, g, d, t)))
  }

  /** What survivors have to do with the whole index. */
  lemma SurvivorsTell(dist: Metric, v: View, ask: Ask, f: Faults, m: Counters, g: GeoSet, d: DetailKeys,
                      raw: seq<Candidate>, survivors: seq<Survivor>)
    requires SurvivorsOk(dist, v, ask, g, m, raw, survivors)
    requires forall t :: Eligible(dist, v, ask, g, t) ==> Hit(raw, t)
    ensures TellingFails(dist, v, ask, f, m, g, d)
            <==> || (survivors != [] && f.detail.FirstFails?)
                 || (AnyNeedsProfile(survivors) && f.profiles)
                 || exists s :: s in survivors && Reported(Hydrated(IdsOf(survivors), d, ask.now), s)
                                && s.userId in f.audit
  {
    var details := Hydrated(IdsOf(survivors), d, ask.now);
    HydratedAre(survivors, d, ask.now);
    forall s | s in survivors
      ensures Survives(survivors, s.userId) && Passing(dist, v, ask, m, g, s.userId) && s.userId in g
      ensures NeedsProfile(s) <==> Named(v, ask.requester, s.userId)
      ensures Reported(details, s) <==> Visible(dist, v, ask, g, d, s.userId)
    {
    }
    if TellingFails(dist, v, ask, f, m, g, d) {
      var t :| t in g && Passing(dist, v, ask, m, g, t)
               && (f.detail.FirstFails? || (f.profiles && Named(v, ask.requester, t))
                   || (t in f.audit && Visible(dist, v, ask, g, d, t)));
      assert Survives(survivors, t);
      var s :| s in survivors && s.userId == t;
    }
    if survivors != [] && f.detail.FirstFails? {
      assert survivors[0] in survivors;
    }
  }

  /** The filters fail: a question about somebody within the padded radius does. */
  predicate FilteringFails(dist: Metric, v: View, ask: Ask, f: Faults, m: Counters, g: GeoSet) {
    exists t :: t in g && t != ask.requester && dist(ask.pos, g[t]) <= SearchRadius(ask)
                && QuestionFails(dist, v, ask, f, m, t, g[t])
  }

  lemma OneOfTheHitsFails(dist: Metric, v: View, ask: Ask, f: Faults, m: Counters, g: GeoSet, names: seq<string>)
    requires IsSearchReply(dist, g, ask.pos, SearchRadius(ask), names)
    ensures OneFails(dist, v, ask, f, m, Candidates(names, g, ask.requester))
            <==> FilteringFails(dist, v, ask, f, m, g)
  {
    var raw := Candidates(names, g, ask.requester);
    CandidatesAre(names, g, ask.requester);
    if t :| t in g && t != ask.requester && dist(ask.pos, g[t]) <= SearchRadius(ask)
            && QuestionFails(dist, v, ask, f, m, t, g[t]) {
      assert Candidate(t, g[t]) in raw;
    }
  }

  // ----- the whole query -----

  /** What follows on an open daily budget. */
  lemma OpenQueryFailsExactly(dist: Metric, v: View, ask: Ask, f: Faults, m: Counters, g: GeoSet, d: DetailKeys,
                              names: seq<string>)
    requires IsSearchReply(dist, g, ask.pos, SearchRadius(ask), names) && DailyFree(m, ask)
    requires !LimiterFails(m, DailyKey(ask.requester), ask.now, f.daily)
    requires Candidates(names, g, ask.requester) != []
    ensures AfterSearch(dist, v, ask, f, m, d, Candidates(names, g, ask.requester)).result.Err?
            <==> FilteringFails(dist, v, ask, f, m, g) || TellingFails(dist, v, ask, f, m, g, d)
  {
    var raw, m1 := Candidates(names, g, ask.requester), DailyCharged(m, ask);
    OpenDaily(m, ask, f);
    SearchFindsEligible(dist, v, ask, g, names);
    CandidatesAre(names, g, ask.requester);
    ScanFailsExactly(dist, v, ask, f, m1, raw);
    DailyFailsAlike(dist, v, ask, f, m, g, d);
    OneOfTheHitsFails(dist, v, ask, f, m1, g, names);
    var scan := ScanAll(dist, v, ask, f, m1, raw);
    if !scan.failed {
      ScanAsWithoutFaults(dist, v, ask, f, m1, raw);
      ScanFacts(dist, v, ask, g, m1, raw);
      SurvivorsTell(dist, v, ask, f, m1, g, d, raw, scan.survivors);
      ReportFailsExactly(ask, f, Hydrated(IdsOf(scan.survivors), d, ask.now), v.users, scan.survivors);
    }
  }

  lemma OpenDaily(m: Counters, ask: Ask, f: Faults)
    requires DailyFree(m, ask) && !LimiterFails(m, DailyKey(ask.requester), ask.now, f.daily)
    ensures RateLimiter.AllowCounters(m, ask.now, DailyKey(ask.requester), DAILY_WINDOW, f.daily) == DailyCharged(m, ask)
    ensures var v := RateLimiter.AllowVerdict(m, ask.now, DailyKey(ask.requester), DAILY_LIMIT, DAILY_WINDOW, f.daily);
            v.Ok? && v.value.allowed
  {
    VerdictFailsExactly(m, ask.now, DailyKey(ask.requester), DAILY_LIMIT, DAILY_WINDOW, f.daily);
    VerdictAsWithoutFault(m, ask.now, DailyKey(ask.requester), DAILY_LIMIT, DAILY_WINDOW, f.daily);
    ChargingDailyKeepsPairs(m, ask);
  }

  /** Charging the daily budget leaves the questions about prospects as they were. */
  lemma DailyFailsAlike(dist: Metric, v: View, ask: Ask, f: Faults, m: Counters, g: GeoSet, d: DetailKeys)
    ensures FilteringFails(dist, v, ask, f, DailyCharged(m, ask), g) <==> FilteringFails(dist, v, ask, f, m, g)
    ensures TellingFails(dist, v, ask, f, DailyCharged(m, ask), g, d) <==> TellingFails(dist, v, ask, f, m, g, d)
  {
    ChargingDailyKeepsPairs(m, ask);
    forall t | t in g
      ensures QuestionFails(dist, v, ask, f, DailyCharged(m, ask), t, g[t]) == QuestionFails(dist, v, ask, f, m, t, g[t])
      ensures Passing(dist, v, ask, DailyCharged(m, ask), g, t) == Passing(dist, v, ask, m, g, t)
    {
      SameHitsFailAlike(dist, v, ask, f, DailyCharged(m, ask), m, t, g[t]);
    }
  }

  /** The search fails: it does, or the positions of its hits cannot be read. */
  predicate SearchFails(dist: Metric, ask: Ask, f: Faults, g: GeoSet) {
    || f.search.FirstFails?
    || (f.search.SecondFails? && exists u :: u in g && dist(ask.pos, g[u]) <= SearchRadius(ask))
  }

  /** A query fails exactly if the search does; or, if it finds somebody, the daily budget; or, if that is open, a question
      about one of those found, or the telling of those who pass. Nothing else is asked, and a failure there is none. */
  lemma QueryFailsExactly(dist: Metric, v: View, ask: Ask, f: Faults, m: Counters, g: GeoSet, d: DetailKeys,
                          names: seq<string>)
    requires IsSearchReply(dist, g, ask.pos, SearchRadius(ask), names)
    ensures var r := Query(dist, v, ask, f, m, g, d, names).result;
            && (r.Err? <==> || SearchFails(dist, ask, f, g)
                            || (SomebodyNear(dist, ask, g)
                                && (|| LimiterFails(m, DailyKey(ask.requester), ask.now, f.daily)
                                    || (DailyFree(m, ask) && (|| FilteringFails(dist, v, ask, f, m, g)
                                                              || TellingFails(dist, v, ask, f, m, g, d))))))
            && (r.Err? ==> r.error == PresenceError.Unavailable)
  {
    SearchFindsSomebody(dist, ask, g, names);
    NamesAreThere(dist, ask, g, names);
    if Candidates(names, g, ask.requester) != [] && !SearchFails(dist, ask, f, g) {
      VerdictFailsExactly(m, ask.now, DailyKey(ask.requester), DAILY_LIMIT, DAILY_WINDOW, f.daily);
      if !LimiterFails(m, DailyKey(ask.requester), ask.now, f.daily) {
        if DailyFree(m, ask) {
          OpenQueryFailsExactly(dist, v, ask, f, m, g, d, names);
        } else {
          RateLimiter.AllowedExactlyBelowLimit(m, ask.now, DailyKey(ask.requester), DAILY_LIMIT, DAILY_WINDOW, f.daily);
        }
      }
    }
  }

  lemma NamesAreThere(dist: Metric, ask: Ask, g: GeoSet, names: seq<string>)
    requires IsSearchReply(dist, g, ask.pos, SearchRadius(ask), names)
    ensures names != [] <==> exists u :: u in g && dist(ask.pos, g[u]) <= SearchRadius(ask)
  {
    if names != [] {
      assert names[0] in names;
    }
  }
}
