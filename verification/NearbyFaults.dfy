/** Failures and answers: a query that answers at all answers as if nothing had failed. */
module NearbyFaults {
  import opened Wrappers
  import opened RedisCounters
  import opened RedisGeo
  import opened Presence
  import opened Database
  import opened GeoStore
  import opened Nearby
  import RateLimiter

  /** The filters and the loop are one: as long as no lookup about the candidate fails, its pair's budget is asked for
      if and only if `Passes` holds, and otherwise nothing changes. */
  lemma ConsiderAsksIfPasses(dist: Metric, v: View, ask: Ask, f: Faults, st: Scan, c: Candidate)
    requires !st.failed && c.userId != ask.requester
    requires c.userId !in f.block && c.userId !in f.target && c.userId !in f.follow
    ensures var t := SettingsOf(v.rows, c.userId);
            var mutual := MutualFollow(v.follows, ask.requester, c.userId);
            var d := dist(ask.pos, c.position);
            Consider(dist, v, ask, f, st, c)
            == if Passes(ask.row, t, BlockedEitherWay(v.blocks, ask.requester, c.userId), mutual, d, ask.now)
               then Charge(ask, f, st, Survivor(c.userId, d, mutual, t)) else st
  {
  }

  /** A limiter call that gives a verdict gives the one without failures, and counts the same; at most the retry time
      is another. */
  lemma VerdictAsWithoutFault(m: Counters, now: int, key: string, limit: int, window: int, fault: RateLimiter.Fault)
    requires RateLimiter.AllowVerdict(m, now, key, limit, window, fault).Ok?
    ensures RateLimiter.AllowCounters(m, now, key, window, fault)
            == RateLimiter.AllowCounters(m, now, key, window, RateLimiter.NoFault)
    ensures var v := RateLimiter.AllowVerdict(m, now, key, limit, window, RateLimiter.NoFault);
            v.Ok? && v.value.allowed == RateLimiter.AllowVerdict(m, now, key, limit, window, fault).value.allowed
  {
  }

  lemma ChargeAsWithoutFaults(ask: Ask, f: Faults, st: Scan, s: Survivor)
    requires !Charge(ask, f, st, s).failed
    ensures Charge(ask, f, st, s) == Charge(ask, NoFaults, st, s)
  {
    VerdictAsWithoutFault(st.counters, ask.now, PairKey(ask.requester, s.userId), PAIR_LIMIT, PAIR_WINDOW,
                          PairFault(f, s.userId));
  }

  lemma ConsiderAsWithoutFaults(dist: Metric, v: View, ask: Ask, f: Faults, st: Scan, c: Candidate)
    requires !Consider(dist, v, ask, f, st, c).failed
    ensures !st.failed && Consider(dist, v, ask, f, st, c) == Consider(dist, v, ask, NoFaults, st, c)
  {
    var s := Survivor(c.userId, dist(ask.pos, c.position), MutualFollow(v.follows, ask.requester, c.userId),
                      SettingsOf(v.rows, c.userId));
    if !Charge(ask, f, st, s).failed {
      ChargeAsWithoutFaults(ask, f, st, s);
    }
  }

  lemma {:induction false} ScanAsWithoutFaults(dist: Metric, v: View, ask: Ask, f: Faults, m: Counters,
                                               raw: seq<Candidate>)
    requires !ScanAll(dist, v, ask, f, m, raw).failed
    ensures ScanAll(dist, v, ask, f, m, raw) == ScanAll(dist, v, ask, NoFaults, m, raw)
  {
    if raw != [] {
      var init, c := raw[..|raw| - 1], raw[|raw| - 1];
      ConsiderAsWithoutFaults(dist, v, ask, f, ScanAll(dist, v, ask, f, m, init), c);
      ScanAsWithoutFaults(dist, v, ask, f, m, init);
    }
  }

  lemma {:induction false} ReportAsWithoutFaults(ask: Ask, f: Faults, details: map<string, Detail>,
                                                 users: map<string, Profile>, survivors: seq<Survivor>)
    requires !ReportAll(ask, f, details, users, survivors).failed
    ensures ReportAll(ask, f, details, users, survivors) == ReportAll(ask, NoFaults, details, users, survivors)
  {
    if survivors != [] {
      ReportAsWithoutFaults(ask, f, details, users, survivors[..|survivors| - 1]);
    }
  }

  lemma AfterSearchAsWithoutFaults(dist: Metric, v: View, ask: Ask, f: Faults, m: Counters, d: DetailKeys,
                                   raw: seq<Candidate>)
    requires AfterSearch(dist, v, ask, f, m, d, raw).result.Ok?
    ensures AfterSearch(dist, v, ask, f, m, d, raw) == AfterSearch(dist, v, ask, NoFaults, m, d, raw)
  {
    if raw != [] {
      VerdictAsWithoutFault(m, ask.now, DailyKey(ask.requester), DAILY_LIMIT, DAILY_WINDOW, f.daily);
      var m1 := RateLimiter.AllowCounters(m, ask.now, DailyKey(ask.requester), DAILY_WINDOW, f.daily);
      var scan := ScanAll(dist, v, ask, f, m1, raw);
      if !scan.failed {
        ScanAsWithoutFaults(dist, v, ask, f, m1, raw);
        var details := Hydrated(IdsOf(scan.survivors), d, ask.now);
        if !ReportAll(ask, f, details, v.users, scan.survivors).failed {
          ReportAsWithoutFaults(ask, f, details, v.users, scan.survivors);
        }
      }
    }
  }

  /** Whatever fails along the way, a query with an answer has the answer, the budgets and the audit entries of the
      query in which nothing fails. */
  lemma AnswerAsWithoutFaults(dist: Metric, v: View, ask: Ask, f: Faults, m: Counters, g: GeoSet, d: DetailKeys,
                              names: seq<string>)
    requires Query(dist, v, ask, f, m, g, d, names).result.Ok?
    ensures Query(dist, v, ask, f, m, g, d, names) == Query(dist, v, ask, NoFaults, m, g, d, names)
  {
    AfterSearchAsWithoutFaults(dist, v, ask, f, m, d, Candidates(names, g, ask.requester));
  }
}
