/** What an answered query leaves behind in the limiter's counters, key by key. */
module NearbyCounters {
  import opened Wrappers
  import opened RedisCounters
  import opened RedisGeo
  import opened Presence
  import opened Database
  import opened GeoStore
  import opened Nearby
  import opened NearbyFaults
  import opened NearbyTheorems
  import RateLimiter

  /** A counter after one more hit: a live one that has been hit keeps its deadline, any other starts a window. */
  function OneMore(c: Option<Counter>, now: int, window: int): Counter {
    if c.Some? && c.value.n > 0 && (c.value.deadline.None? || now < c.value.deadline.value)
    then Counter(c.value.n + 1, c.value.deadline)
    else Counter(1, Some(now + window))
  }

  lemma AllowIsOneMore(m: Counters, now: int, key: string, window: int)
    ensures RateLimiter.AllowCounters(m, now, key, window, RateLimiter.NoFault)
            == m[key := OneMore(Lookup(m, key), now, window)]
  {
  }

  lemma ConsiderCounters(dist: Metric, v: View, ask: Ask, g: GeoSet, st: Scan, c: Candidate)
    requires !st.failed && c.userId in g && c.position == g[c.userId]
    ensures var key := PairKey(ask.requester, c.userId);
            Consider(dist, v, ask, NoFaults, st, c).counters
            == if Eligible(dist, v, ask, g, c.userId)
               then st.counters[key := OneMore(Lookup(st.counters, key), ask.now, 30 * 1000)] else st.counters
  {
    AllowIsOneMore(st.counters, ask.now, PairKey(ask.requester, c.userId), PAIR_WINDOW);
  }

  /** After the filter loop over `raw`: one more hit on the pair key of every eligible one of them, and on no other key. */
  ghost predicate ChargesPairs(dist: Metric, v: View, ask: Ask, g: GeoSet, raw: seq<Candidate>, m: Counters,
                               after: Counters) {
    && (forall t :: Lookup(after, PairKey(ask.requester, t))
                 == if Hit(raw, t) && Eligible(dist, v, ask, g, t)
                    then Some(OneMore(Lookup(m, PairKey(ask.requester, t)), ask.now, 30 * 1000))
                    else Lookup(m, PairKey(ask.requester, t)))
    && (forall key :: (forall t :: key != PairKey(ask.requester, t)) ==> Lookup(after, key) == Lookup(m, key))
  }

  lemma ChargesPairsStep(dist: Metric, v: View, ask: Ask, g: GeoSet, m: Counters, init: seq<Candidate>, c: Candidate,
                         st: Scan)
    requires ChargesPairs(dist, v, ask, g, init, m, st.counters) && !st.failed
    requires !Hit(init, c.userId) && c.userId in g && c.position == g[c.userId]
    ensures ChargesPairs(dist, v, ask, g, init + [c], m, Consider(dist, v, ask, NoFaults, st, c).counters)
  {
    ConsiderCounters(dist, v, ask, g, st, c);
    var after := Consider(dist, v, ask, NoFaults, st, c).counters;
    forall t
      ensures Lookup(after, PairKey(ask.requester, t))
           == if Hit(init + [c], t) && Eligible(dist, v, ask, g, t)
              then Some(OneMore(Lookup(m, PairKey(ask.requester, t)), ask.now, 30 * 1000))
              else Lookup(m, PairKey(ask.requester, t))
    {
      HitSnoc(init, c, t);
      if PairKey(ask.requester, t) == PairKey(ask.requester, c.userId) {
        PairKeysOfOneRequesterDiffer(ask.requester, t, c.userId);
      }
    }
  }

  lemma {:induction false} ScanCharges(dist: Metric, v: View, ask: Ask, g: GeoSet, m: Counters, raw: seq<Candidate>)
    requires From(raw, g) && Distinct(raw)
    ensures ChargesPairs(dist, v, ask, g, raw, m, ScanAll(dist, v, ask, NoFaults, m, raw).counters)
  {
    if raw != [] {
      var init, c := raw[..|raw| - 1], raw[|raw| - 1];
      LastIsNew(raw);
      ScanFacts(dist, v, ask, g, m, init);
      ScanCharges(dist, v, ask, g, m, init);
      assert raw == init + [c] && c in raw;
      ChargesPairsStep(dist, v, ask, g, m, init, c, ScanAll(dist, v, ask, NoFaults, m, init));
    }
  }

  /** Somebody else is within the padded radius, so the search is not empty. */
  predicate SomebodyNear(dist: Metric, ask: Ask, g: GeoSet) {
    exists u :: u in g && u != ask.requester && dist(ask.pos, g[u]) <= ask.row.radiusM as real + 150.0
  }

  lemma SearchFindsSomebody(dist: Metric, ask: Ask, g: GeoSet, names: seq<string>)
    requires IsSearchReply(dist, g, ask.pos, SearchRadius(ask), names)
    ensures Candidates(names, g, ask.requester) != [] <==> SomebodyNear(dist, ask, g)
  {
    var raw := Candidates(names, g, ask.requester);
    CandidatesAre(names, g, ask.requester);
    if raw != [] {
      assert raw[0] in raw;
    }
    if u :| u in g && u != ask.requester && dist(ask.pos, g[u]) <= SearchRadius(ask) {
      assert Candidate(u, g[u]) in raw;
    }
  }

  /** One more hit on the asker's daily key, for a day if it opens a window, if somebody is near; on the pair key of every
      eligible user, for 30 s if it opens one, if the daily budget was not used up; and on no other key. */
  ghost predicate Charges(dist: Metric, v: View, ask: Ask, m: Counters, g: GeoSet, after: Counters) {
    && Lookup(after, DailyKey(ask.requester))
       == (if SomebodyNear(dist, ask, g)
           then Some(OneMore(Lookup(m, DailyKey(ask.requester)), ask.now, 24 * 60 * 60 * 1000))
           else Lookup(m, DailyKey(ask.requester)))
    && (forall t :: Lookup(after, PairKey(ask.requester, t))
                 == if DailyFree(m, ask) && Eligible(dist, v, ask, g, t)
                    then Some(OneMore(Lookup(m, PairKey(ask.requester, t)), ask.now, 30 * 1000))
                    else Lookup(m, PairKey(ask.requester, t)))
    && (forall key :: (key != DailyKey(ask.requester) && forall t :: key != PairKey(ask.requester, t)) ==>
          Lookup(after, key) == Lookup(m, key))
  }

  lemma DailyChargedIs(m: Counters, ask: Ask)
    ensures DailyCharged(m, ask)
            == m[DailyKey(ask.requester) := OneMore(Lookup(m, DailyKey(ask.requester)), ask.now, 24 * 60 * 60 * 1000)]
  {
    AllowIsOneMore(m, ask.now, DailyKey(ask.requester), DAILY_WINDOW);
  }

  /** Charging the daily key first changes none of the pair keys. */
  lemma ChargesTogether(dist: Metric, v: View, ask: Ask, g: GeoSet, raw: seq<Candidate>, m: Counters, after: Counters)
    requires ChargesPairs(dist, v, ask, g, raw, DailyCharged(m, ask), after)
    requires DailyFree(m, ask) && SomebodyNear(dist, ask, g) && forall t :: Eligible(dist, v, ask, g, t) ==> Hit(raw, t)
    ensures Charges(dist, v, ask, m, g, after)
  {
    DailyChargedIs(m, ask);
    forall t
      ensures Lookup(DailyCharged(m, ask), PairKey(ask.requester, t)) == Lookup(m, PairKey(ask.requester, t))
      ensures PairKey(ask.requester, t) != DailyKey(ask.requester)
    {
      PairAndDailyKeysDiffer(ask.requester, t, ask.requester);
    }
  }

  lemma OpenQueryCharges(dist: Metric, v: View, ask: Ask, m: Counters, g: GeoSet, d: DetailKeys, names: seq<string>)
    requires IsSearchReply(dist, g, ask.pos, SearchRadius(ask), names)
    requires DailyFree(m, ask) && Candidates(names, g, ask.requester) != []
    ensures Charges(dist, v, ask, m, g, Query(dist, v, ask, NoFaults, m, g, d, names).counters)
  {
    var raw := Candidates(names, g, ask.requester);
    SearchFindsSomebody(dist, ask, g, names);
    SearchFindsEligible(dist, v, ask, g, names);
    QueryCounters(dist, v, ask, m, g, d, names);
    ScanCharges(dist, v, ask, g, DailyCharged(m, ask), raw);
    ChargesTogether(dist, v, ask, g, raw, m, ScanAll(dist, v, ask, NoFaults, DailyCharged(m, ask), raw).counters);
  }

  lemma ClosedQueryCharges(dist: Metric, v: View, ask: Ask, m: Counters, g: GeoSet, d: DetailKeys, names: seq<string>)
    requires IsSearchReply(dist, g, ask.pos, SearchRadius(ask), names)
    requires !DailyFree(m, ask) || Candidates(names, g, ask.requester) == []
    ensures Charges(dist, v, ask, m, g, Query(dist, v, ask, NoFaults, m, g, d, names).counters)
  {
    SearchFindsSomebody(dist, ask, g, names);
    SearchFindsEligible(dist, v, ask, g, names);
    DailyChargedIs(m, ask);
    if Candidates(names, g, ask.requester) != [] {
      UsedUpAnswersNobody(dist, v, ask, m, g, d, names);
    } else {
      assert forall t :: !Hit(Candidates(names, g, ask.requester), t);
    }
    forall t
      ensures PairKey(ask.requester, t) != DailyKey(ask.requester)
    {
      PairAndDailyKeysDiffer(ask.requester, t, ask.requester);
    }
  }

  /** The counters after any answered query, key by key. */
  lemma QueryCharges(dist: Metric, v: View, ask: Ask, f: Faults, m: Counters, g: GeoSet, d: DetailKeys,
                     names: seq<string>)
    requires IsSearchReply(dist, g, ask.pos, SearchRadius(ask), names)
    requires Query(dist, v, ask, f, m, g, d, names).result.Ok?
    ensures Charges(dist, v, ask, m, g, Query(dist, v, ask, f, m, g, d, names).counters)
  {
    AnswerAsWithoutFaults(dist, v, ask, f, m, g, d, names);
    if DailyFree(m, ask) && Candidates(names, g, ask.requester) != [] {
      OpenQueryCharges(dist, v, ask, m, g, d, names);
    } else {
      ClosedQueryCharges(dist, v, ask, m, g, d, names);
    }
  }
}
