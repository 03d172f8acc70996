/** What an answer depends on: buckets, not distances; profiles only where they may be shown; and how far
    a jittered answer can be from the truth. */
module NearbyPrivacy {
  import opened Wrappers
  import opened RedisCounters
  import opened RedisGeo
  import opened Presence
  import opened Database
  import opened GeoStore
  import opened Nearby
  import opened NearbyFaults
  import opened NearbyTheorems
  import RateLimiter

  // ----- only buckets matter -----

  /** The members within the radius, in the order the index enumerates its members. */
  function InRange(order: seq<string>, dist: Metric, g: GeoSet, pos: GeoPosition, radius: real): seq<string> {
    if order == [] then []
    else
      var u := order[|order| - 1];
      InRange(order[..|order| - 1], dist, g, pos, radius)
      + if u in g && dist(pos, g[u]) <= radius then [u] else []
  }

  function Raw(order: seq<string>, dist: Metric, g: GeoSet, ask: Ask): seq<Candidate> {
    Candidates(InRange(order, dist, g, ask.pos, SearchRadius(ask)), g, ask.requester)
  }

  predicate OnBoundary(d: real) {
    d == 150.0 || d == 1000.0 || d == 5000.0 || d == 15000.0
  }

  /** The same users at possibly different distances, but everybody in the same bucket and off the boundaries. */
  ghost predicate SameBuckets(dist: Metric, a: Ask, g: GeoSet, b: Ask, h: GeoSet) {
    && b == a.(pos := b.pos)
    && g.Keys == h.Keys
    && forall t :: t in g && t != a.requester ==>
         && BucketFor(dist(a.pos, g[t])) == BucketFor(dist(b.pos, h[t]))
         && !OnBoundary(dist(a.pos, g[t])) && !OnBoundary(dist(b.pos, h[t]))
  }

  /** Every radius a settings operation can have stored. */
  ghost predicate RadiiOk(v: View, ask: Ask) {
    IsValidRadius(ask.row.radiusM) && forall t :: IsValidRadius(SettingsOf(v.rows, t).radiusM)
  }

  lemma ValidRadii(m: int)
    ensures IsValidRadius(m) <==> m == 150 || m == 1000 || m == 5000 || m == 15000
  {
    assert ALLOWED_RADII_M[0] == 150 && ALLOWED_RADII_M[1] == 1000;
    assert ALLOWED_RADII_M[2] == 5000 && ALLOWED_RADII_M[3] == 15000;
  }

  /** With radii on the allowed steps, the radius gate sees no more of a distance than its bucket. */
  lemma BucketDecidesRadiusGate(r1: int, r2: int, d: real, e: real)
    requires IsValidRadius(r1) && IsValidRadius(r2)
    requires BucketFor(d) == BucketFor(e) && !OnBoundary(d) && !OnBoundary(e)
    ensures d <= Min(r1 as real, r2 as real) <==> e <= Min(r1 as real, r2 as real)
  {
    ValidRadii(r1);
    ValidRadii(r2);
  }

  predicate TwinSurvivor(s: Survivor, t: Survivor) {
    s.userId == t.userId && s.mutual == t.mutual && s.target == t.target && BucketFor(s.dist) == BucketFor(t.dist)
  }

  ghost predicate TwinSurvivors(ss: seq<Survivor>, ts: seq<Survivor>) {
    |ss| == |ts| && forall i :: 0 <= i < |ss| ==> TwinSurvivor(ss[i], ts[i])
  }

  ghost predicate TwinScans(s: Scan, t: Scan) {
    s.counters == t.counters && s.failed == t.failed && TwinSurvivors(s.survivors, t.survivors)
  }

  lemma ConsiderTwins(dist: Metric, v: View, a: Ask, g: GeoSet, b: Ask, h: GeoSet, s: Scan, t: Scan, u: string)
    requires SameBuckets(dist, a, g, b, h) && RadiiOk(v, a) && u in g && u != a.requester
    requires TwinScans(s, t)
    ensures TwinScans(Consider(dist, v, a, NoFaults, s, Candidate(u, g[u])),
                      Consider(dist, v, b, NoFaults, t, Candidate(u, h[u])))
  {
    BucketDecidesRadiusGate(a.row.radiusM, SettingsOf(v.rows, u).radiusM, dist(a.pos, g[u]), dist(b.pos, h[u]));
  }

  lemma {:induction false} ScansOfTheWholeIndexAreTwins(dist: Metric, v: View, a: Ask, g: GeoSet, b: Ask, h: GeoSet,
                                                        m: Counters, order: seq<string>)
    requires SameBuckets(dist, a, g, b, h) && RadiiOk(v, a)
    ensures TwinScans(ScanAll(dist, v, a, NoFaults, m, Candidates(order, g, a.requester)),
                      ScanAll(dist, v, b, NoFaults, m, Candidates(order, h, b.requester)))
  {
    if order != [] {
      var init, u := order[..|order| - 1], order[|order| - 1];
      ScansOfTheWholeIndexAreTwins(dist, v, a, g, b, h, m, init);
      if u in g && u != a.requester {
        ScanSnoc(dist, v, a, m, Candidates(init, g, a.requester), Candidate(u, g[u]));
        ScanSnoc(dist, v, b, m, Candidates(init, h, b.requester), Candidate(u, h[u]));
        ConsiderTwins(dist, v, a, g, b, h, ScanAll(dist, v, a, NoFaults, m, Candidates(init, g, a.requester)),
                      ScanAll(dist, v, b, NoFaults, m, Candidates(init, h, b.requester)), u);
      } else {
        assert Candidates(order, g, a.requester) == Candidates(init, g, a.requester);
        assert Candidates(order, h, b.requester) == Candidates(init, h, b.requester);
      }
    }
  }

  lemma ScanSnoc(dist: Metric, v: View, ask: Ask, m: Counters, raw: seq<Candidate>, c: Candidate)
    ensures ScanAll(dist, v, ask, NoFaults, m, raw + [c])
         == Consider(dist, v, ask, NoFaults, ScanAll(dist, v, ask, NoFaults, m, raw), c)
  {
    assert (raw + [c])[..|raw + [c]| - 1] == raw;
  }

  lemma CandidatesSnoc(names: seq<string>, u: string, g: GeoSet, exclude: string)
    ensures Candidates(names + [u], g, exclude)
         == Candidates(names, g, exclude) + if u == exclude || u !in g then [] else [Candidate(u, g[u])]
  {
    assert (names + [u])[..|names + [u]| - 1] == names;
  }

  lemma FarMemberDoesNothing(dist: Metric, v: View, ask: Ask, g: GeoSet, st: Scan, u: string)
    requires u in g && dist(ask.pos, g[u]) > SearchRadius(ask) && !st.failed
    ensures Consider(dist, v, ask, NoFaults, st, Candidate(u, g[u])) == st
  {
    assert dist(ask.pos, g[u]) > Min(ask.row.radiusM as real, SettingsOf(v.rows, u).radiusM as real);
  }

  lemma RawSnoc(init: seq<string>, u: string, dist: Metric, g: GeoSet, ask: Ask)
    ensures Raw(init + [u], dist, g, ask)
         == Raw(init, dist, g, ask)
            + if u in g && u != ask.requester && dist(ask.pos, g[u]) <= SearchRadius(ask)
              then [Candidate(u, g[u])] else []
  {
    assert (init + [u])[..|init + [u]| - 1] == init;
    var near := InRange(init, dist, g, ask.pos, SearchRadius(ask));
    var all := InRange(init + [u], dist, g, ask.pos, SearchRadius(ask));
    if u in g && dist(ask.pos, g[u]) <= SearchRadius(ask) {
      assert all == near + [u];
      CandidatesSnoc(near, u, g, ask.requester);
    } else {
      assert all == near;
    }
  }

  /** One more member of the index: in range or not, the hits and the whole index are scanned alike. */
  lemma OutOfRangeStep(dist: Metric, v: View, ask: Ask, g: GeoSet, m: Counters, init: seq<string>, u: string)
    requires var near := ScanAll(dist, v, ask, NoFaults, m, Raw(init, dist, g, ask));
             near == ScanAll(dist, v, ask, NoFaults, m, Candidates(init, g, ask.requester)) && !near.failed
    requires u in g && u != ask.requester
    ensures var c := Candidate(u, g[u]);
            var raw, cs := Raw(init, dist, g, ask), Candidates(init, g, ask.requester);
            var near := if dist(ask.pos, g[u]) <= SearchRadius(ask) then raw + [c] else raw;
            && ScanAll(dist, v, ask, NoFaults, m, near) == ScanAll(dist, v, ask, NoFaults, m, cs + [c])
            && !ScanAll(dist, v, ask, NoFaults, m, cs + [c]).failed
  {
    var c := Candidate(u, g[u]);
    var raw, cs := Raw(init, dist, g, ask), Candidates(init, g, ask.requester);
    var st := ScanAll(dist, v, ask, NoFaults, m, cs);
    ScanSnoc(dist, v, ask, m, raw, c);
    ScanSnoc(dist, v, ask, m, cs, c);
    ConsiderEffect(dist, v, ask, g, st, c);
    if dist(ask.pos, g[u]) > SearchRadius(ask) {
      FarMemberDoesNothing(dist, v, ask, g, st, u);
    }
  }

  /** Filtering the padded search's hits is filtering the whole index: members out of range do nothing. */
  lemma {:induction false} OutOfRangeDoesNothing(dist: Metric, v: View, ask: Ask, g: GeoSet, m: Counters,
                                                 order: seq<string>)
    ensures ScanAll(dist, v, ask, NoFaults, m, Raw(order, dist, g, ask))
         == ScanAll(dist, v, ask, NoFaults, m, Candidates(order, g, ask.requester))
    ensures !ScanAll(dist, v, ask, NoFaults, m, Candidates(order, g, ask.requester)).failed
  {
    if order != [] {
      var init, u := order[..|order| - 1], order[|order| - 1];
      assert order == init + [u];
      OutOfRangeDoesNothing(dist, v, ask, g, m, init);
      RawSnoc(init, u, dist, g, ask);
      CandidatesSnoc(init, u, g, ask.requester);
      var raw, cs := Raw(init, dist, g, ask), Candidates(init, g, ask.requester);
      assert raw + [] == raw && cs + [] == cs;
      if u in g && u != ask.requester {
        OutOfRangeStep(dist, v, ask, g, m, init, u);
      }
    }
  }

  lemma {:induction false} TwinsReportAlike(a: Ask, b: Ask, details: map<string, Detail>, users: map<string, Profile>,
                                            ss: seq<Survivor>, ts: seq<Survivor>)
    requires TwinSurvivors(ss, ts) && b == a.(pos := b.pos)
    ensures ReportAll(a, NoFaults, details, users, ss) == ReportAll(b, NoFaults, details, users, ts)
  {
    if ss != [] {
      TwinsReportAlike(a, b, details, users, ss[..|ss| - 1], ts[..|ts| - 1]);
      assert TwinSurvivor(ss[|ss| - 1], ts[|ts| - 1]);
    }
  }

  lemma TwinsNeedTheSame(ss: seq<Survivor>, ts: seq<Survivor>)
    requires TwinSurvivors(ss, ts)
    ensures IdsOf(ss) == IdsOf(ts)
  {
    assert forall i :: 0 <= i < |ss| ==> TwinSurvivor(ss[i], ts[i]);
  }

  lemma OnlyBucketsMatterWithoutFaults(dist: Metric, v: View, a: Ask, g: GeoSet, b: Ask, h: GeoSet, m: Counters,
                                       d: DetailKeys, order: seq<string>)
    requires SameBuckets(dist, a, g, b, h) && RadiiOk(v, a)
    ensures var o := Query(dist, v, a, NoFaults, m, g, d, InRange(order, dist, g, a.pos, SearchRadius(a)));
            var p := Query(dist, v, b, NoFaults, m, h, d, InRange(order, dist, h, b.pos, SearchRadius(b)));
            && o.result == p.result && o.appended == p.appended
            && (forall key :: key != DailyKey(a.requester) ==> Lookup(o.counters, key) == Lookup(p.counters, key))
            && (o.counters == p.counters <==> (Raw(order, dist, g, a) == [] <==> Raw(order, dist, h, b) == []))
  {
    var raw, raw' := Raw(order, dist, g, a), Raw(order, dist, h, b);
    var m1 := DailyCharged(m, a);
    ChargingDailyKeepsPairs(m, a);
    ScansAfterSearchAreTwins(dist, v, a, g, b, h, m1, order);
    var s, t := ScanAll(dist, v, a, NoFaults, m1, raw), ScanAll(dist, v, b, NoFaults, m1, raw');
    TwinsNeedTheSame(s.survivors, t.survivors);
    TwinsReportAlike(a, b, Hydrated(IdsOf(s.survivors), d, a.now), v.users, s.survivors, t.survivors);
    if raw == [] || raw' == [] {
      DailyChargeShows(m, a);
      assert s.counters == m1 && t.counters == m1;
      assert s.survivors == [] && t.survivors == [];
    } else {
      AfterSearchShape(dist, v, a, m, d, raw);
      AfterSearchShape(dist, v, b, m, d, raw');
    }
  }

  /** Two indexes that differ only in distances within the same buckets get the same answer and leave the same
      audit trail and the same pair budgets, if both queries have an answer, whatever fails along the way. The daily
      budget tells them apart exactly when one search, and not the other, comes back empty: the padding ring beyond the
      radius decides that, not the buckets. */
  lemma OnlyBucketsMatter(dist: Metric, v: View, a: Ask, g: GeoSet, e: Faults, b: Ask, h: GeoSet, f: Faults,
                          m: Counters, d: DetailKeys, order: seq<string>)
    requires SameBuckets(dist, a, g, b, h) && RadiiOk(v, a)
    requires Query(dist, v, a, e, m, g, d, InRange(order, dist, g, a.pos, SearchRadius(a))).result.Ok?
    requires Query(dist, v, b, f, m, h, d, InRange(order, dist, h, b.pos, SearchRadius(b))).result.Ok?
    ensures var o := Query(dist, v, a, e, m, g, d, InRange(order, dist, g, a.pos, SearchRadius(a)));
            var p := Query(dist, v, b, f, m, h, d, InRange(order, dist, h, b.pos, SearchRadius(b)));
            && o.result == p.result && o.appended == p.appended
            && (forall key :: key != DailyKey(a.requester) ==> Lookup(o.counters, key) == Lookup(p.counters, key))
            && (o.counters == p.counters <==> (Raw(order, dist, g, a) == [] <==> Raw(order, dist, h, b) == []))
  {
    AnswerAsWithoutFaults(dist, v, a, e, m, g, d, InRange(order, dist, g, a.pos, SearchRadius(a)));
    AnswerAsWithoutFaults(dist, v, b, f, m, h, d, InRange(order, dist, h, b.pos, SearchRadius(b)));
    OnlyBucketsMatterWithoutFaults(dist, v, a, g, b, h, m, d, order);
  }

  lemma ScansAfterSearchAreTwins(dist: Metric, v: View, a: Ask, g: GeoSet, b: Ask, h: GeoSet, m: Counters,
                                 order: seq<string>)
    requires SameBuckets(dist, a, g, b, h) && RadiiOk(v, a)
    ensures TwinScans(ScanAll(dist, v, a, NoFaults, m, Raw(order, dist, g, a)),
                      ScanAll(dist, v, b, NoFaults, m, Raw(order, dist, h, b)))
  {
    OutOfRangeDoesNothing(dist, v, a, g, m, order);
    OutOfRangeDoesNothing(dist, v, b, h, m, order);
    ScansOfTheWholeIndexAreTwins(dist, v, a, g, b, h, m, order);
  }

  lemma DailyChargeShows(m: Counters, ask: Ask)
    ensures DailyCharged(m, ask) != m
    ensures forall key :: key != DailyKey(ask.requester) ==> Lookup(DailyCharged(m, ask), key) == Lookup(m, key)
  {
    RateLimiter.AllowedExactlyBelowLimit(m, ask.now, DailyKey(ask.requester), DAILY_LIMIT, DAILY_WINDOW,
                                         RateLimiter.NoFault);
  }

  // ----- profiles -----

  lemma {:induction false} ScanIgnoresProfiles(dist: Metric, v: View, users: map<string, Profile>, ask: Ask, f: Faults,
                                               m: Counters, raw: seq<Candidate>)
    ensures ScanAll(dist, v, ask, f, m, raw) == ScanAll(dist, v.(users := users), ask, f, m, raw)
  {
    if raw != [] {
      ScanIgnoresProfiles(dist, v, users, ask, f, m, raw[..|raw| - 1]);
    }
  }

  ghost predicate Honest(v: View, ask: Ask, survivors: seq<Survivor>) {
    forall s :: s in survivors ==>
      s.mutual == MutualFollow(v.follows, ask.requester, s.userId) && s.target == SettingsOf(v.rows, s.userId)
  }

  lemma ConsiderIsHonest(dist: Metric, v: View, ask: Ask, f: Faults, st: Scan, c: Candidate)
    requires Honest(v, ask, st.survivors)
    ensures Honest(v, ask, Consider(dist, v, ask, f, st, c).survivors)
  {
  }

  lemma {:induction false} ScanIsHonest(dist: Metric, v: View, ask: Ask, f: Faults, m: Counters, raw: seq<Candidate>)
    ensures Honest(v, ask, ScanAll(dist, v, ask, f, m, raw).survivors)
  {
    if raw != [] {
      ScanIsHonest(dist, v, ask, f, m, raw[..|raw| - 1]);
      ConsiderIsHonest(dist, v, ask, f, ScanAll(dist, v, ask, f, m, raw[..|raw| - 1]), raw[|raw| - 1]);
    }
  }

  lemma {:induction false} ReportIgnoresHiddenProfiles(ask: Ask, f: Faults, details: map<string, Detail>,
                                                       users1: map<string, Profile>, users2: map<string, Profile>,
                                                       survivors: seq<Survivor>, t: string)
    requires users1 - {t} == users2 - {t}
    requires forall s :: s in survivors && s.userId == t ==> !NeedsProfile(s)
    ensures ReportAll(ask, f, details, users1, survivors) == ReportAll(ask, f, details, users2, survivors)
  {
    if survivors != [] {
      var s := survivors[|survivors| - 1];
      ReportIgnoresHiddenProfiles(ask, f, details, users1, users2, survivors[..|survivors| - 1], t);
      assert s.userId != t ==> (s.userId in users1 <==> s.userId in users1 - {t});
      assert s.userId != t ==> (s.userId in users2 <==> s.userId in users2 - {t});
      assert s.userId != t && s.userId in users1 ==> users1[s.userId] == (users1 - {t})[s.userId];
      assert s.userId != t && s.userId in users2 ==> users2[s.userId] == (users2 - {t})[s.userId];
    }
  }

  /** Changing the profile of a user who is neither a mutual follow nor in open discovery changes nothing in a
      query: no answer, no budget, no audit entry, whatever fails. */
  lemma HiddenProfileChangesNothing(dist: Metric, v: View, users: map<string, Profile>, ask: Ask, f: Faults,
                                    m: Counters, g: GeoSet, d: DetailKeys, names: seq<string>, t: string)
    requires v.users - {t} == users - {t}
    requires !MutualFollow(v.follows, ask.requester, t)
    requires SettingsOf(v.rows, t).revealLevel != REVEAL_OPEN_DISCOVERY
    ensures Query(dist, v, ask, f, m, g, d, names) == Query(dist, v.(users := users), ask, f, m, g, d, names)
  {
    var raw := Candidates(names, g, ask.requester);
    var m1 := RateLimiter.AllowCounters(m, ask.now, DailyKey(ask.requester), DAILY_WINDOW, f.daily);
    ScanIgnoresProfiles(dist, v, users, ask, f, m1, raw);
    ScanIsHonest(dist, v, ask, f, m1, raw);
    var survivors := ScanAll(dist, v, ask, f, m1, raw).survivors;
    ReportIgnoresHiddenProfiles(ask, f, Hydrated(IdsOf(survivors), d, ask.now), v.users, users, survivors, t);
  }

  // ----- jitter -----

  ghost predicate IsMetric(dist: Metric) {
    && (forall a, b :: dist(a, b) == dist(b, a) >= 0.0)
    && (forall a, b, c :: dist(a, c) <= dist(a, b) + dist(b, c))
  }

  function BucketFloor(b: DistanceBucket): real {
    match b
    case Bucket1 => 0.0
    case Bucket2 => 150.0
    case Bucket3 => 1000.0
    case Bucket4 => 5000.0
    case BucketNone => 15000.0
  }

  function BucketCeiling(b: DistanceBucket): real
    requires !b.BucketNone?
  {
    match b
    case Bucket1 => 150.0
    case Bucket2 => 1000.0
    case Bucket3 => 5000.0
    case Bucket4 => 15000.0
  }

  /** `me` and `truth` are the real positions; everything the service holds is at most one jitter radius away. */
  ghost predicate Jittered(dist: Metric, g: GeoSet, ask: Ask, me: GeoPosition, truth: map<string, GeoPosition>) {
    && dist(me, ask.pos) <= JITTER_RADIUS_M
    && forall t :: t in g ==> t in truth && dist(truth[t], g[t]) <= JITTER_RADIUS_M
  }

  lemma JitterMovesByAtMostTwoRadii(dist: Metric, g: GeoSet, ask: Ask, me: GeoPosition, truth: map<string, GeoPosition>,
                                    t: string)
    requires IsMetric(dist) && Jittered(dist, g, ask, me, truth) && t in g
    ensures var seen, real_ := dist(ask.pos, g[t]), dist(me, truth[t]);
            real_ - 150.0 <= seen <= real_ + 150.0
  {
    var x, y := ask.pos, g[t];
    assert dist(x, y) <= dist(x, me) + dist(me, y) && dist(me, y) <= dist(me, truth[t]) + dist(truth[t], y);
    assert dist(me, truth[t]) <= dist(me, x) + dist(x, truth[t]) && dist(x, truth[t]) <= dist(x, y) + dist(y, truth[t]);
  }

  /** A reported bucket is off by at most 150 m at either end, and nobody truly farther than the smaller radius
      plus 150 m is shown. */
  lemma BucketsAreTrueWithinJitter(dist: Metric, v: View, ask: Ask, f: Faults, m: Counters, g: GeoSet, d: DetailKeys,
                                   names: seq<string>, me: GeoPosition, truth: map<string, GeoPosition>, r: NearbyResult)
    requires IsMetric(dist) && Jittered(dist, g, ask, me, truth)
    requires IsSearchReply(dist, g, ask.pos, SearchRadius(ask), names) && DailyFree(m, ask)
    requires Query(dist, v, ask, f, m, g, d, names).result.Ok?
    requires r in Query(dist, v, ask, f, m, g, d, names).result.value
    ensures r.userId in truth && !r.bucket.BucketNone?
    ensures BucketFloor(r.bucket) - 150.0 <= dist(me, truth[r.userId]) < BucketCeiling(r.bucket) + 150.0
    ensures dist(me, truth[r.userId]) <= ask.row.radiusM as real + 150.0
    ensures dist(me, truth[r.userId]) <= SettingsOf(v.rows, r.userId).radiusM as real + 150.0
  {
    ListedIsVisible(dist, v, ask, f, m, g, d, names, r);
    VisibleIsTrueWithinJitter(dist, v, ask, g, d, me, truth, r.userId);
  }

  lemma ListedIsVisible(dist: Metric, v: View, ask: Ask, f: Faults, m: Counters, g: GeoSet, d: DetailKeys,
                        names: seq<string>, r: NearbyResult)
    requires IsSearchReply(dist, g, ask.pos, SearchRadius(ask), names) && DailyFree(m, ask)
    requires Query(dist, v, ask, f, m, g, d, names).result.Ok?
    requires r in Query(dist, v, ask, f, m, g, d, names).result.value
    ensures Visible(dist, v, ask, g, d, r.userId) && r.bucket == BucketFor(dist(ask.pos, g[r.userId]))
  {
    IndexAgreesWithFullScan(dist, v, ask, f, m, g, d, names);
    assert Listed(Query(dist, v, ask, f, m, g, d, names).result.value, r.userId);
  }

  lemma VisibleIsTrueWithinJitter(dist: Metric, v: View, ask: Ask, g: GeoSet, d: DetailKeys, me: GeoPosition,
                                  truth: map<string, GeoPosition>, t: string)
    requires IsMetric(dist) && Jittered(dist, g, ask, me, truth) && Visible(dist, v, ask, g, d, t)
    ensures var bucket := BucketFor(dist(ask.pos, g[t]));
            && t in truth && !bucket.BucketNone?
            && BucketFloor(bucket) - 150.0 <= dist(me, truth[t]) < BucketCeiling(bucket) + 150.0
            && dist(me, truth[t]) <= ask.row.radiusM as real + 150.0
            && dist(me, truth[t]) <= SettingsOf(v.rows, t).radiusM as real + 150.0
  {
    JitterMovesByAtMostTwoRadii(dist, g, ask, me, truth, t);
    BucketBounds(dist(ask.pos, g[t]));
  }

  /** A distance lies between the ends of its bucket. */
  lemma BucketBounds(d: real)
    requires d >= 0.0 && !BucketFor(d).BucketNone?
    ensures BucketFloor(BucketFor(d)) <= d < BucketCeiling(BucketFor(d))
  {
  }

  /** Nobody truly closer than the smaller radius minus 150 m is dropped for distance: if everything else about
      them allows it, they are visible. */
  lemma NearUsersAreNotDropped(dist: Metric, v: View, ask: Ask, g: GeoSet, d: DetailKeys, me: GeoPosition,
                               truth: map<string, GeoPosition>, t: string)
    requires IsMetric(dist) && Jittered(dist, g, ask, me, truth) && RadiiOk(v, ask)
    requires t in g && t != ask.requester && !BlockedEitherWay(v.blocks, ask.requester, t)
    requires !SettingsOf(v.rows, t).Hidden() && SettingsOf(v.rows, t).HasActiveConsent(ask.now)
    requires SettingsOf(v.rows, t).visibility == VISIBILITY_FRIENDS_ONLY ==> MutualFollow(v.follows, ask.requester, t)
    requires Present(d, t, ask.now)
    requires dist(me, truth[t]) < Min(ask.row.radiusM as real, SettingsOf(v.rows, t).radiusM as real) - 150.0
    ensures Visible(dist, v, ask, g, d, t)
  {
    JitterMovesByAtMostTwoRadii(dist, g, ask, me, truth, t);
    ValidRadii(ask.row.radiusM);
    ValidRadii(SettingsOf(v.rows, t).radiusM);
  }
}
