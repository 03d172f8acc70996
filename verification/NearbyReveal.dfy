/** Names, avatars, tracks and the daily budget: what of a target's reveal level and track, and of the padding ring, a
    query shows. */
module NearbyReveal {
  import opened Wrappers
  import opened RedisCounters
  import opened RedisGeo
  import opened Presence
  import opened Database
  import opened GeoStore
  import opened Nearby
  import opened NearbyFaults
  import opened NearbyTheorems
  import opened NearbyPrivacy
  import RateLimiter

  // ----- who is named -----

  /** The result carries exactly the profile it should. */
  predicate NamedRight(v: View, requester: string, r: NearbyResult) {
    if Named(v, requester, r.userId) && r.userId in v.users
    then r.displayName == v.users[r.userId].displayName && r.avatarUrl == v.users[r.userId].avatarUrl
    else r.displayName == "" && r.avatarUrl == ""
  }

  lemma {:induction false} ReportedAreNamedRight(v: View, ask: Ask, f: Faults, details: map<string, Detail>,
                                                 survivors: seq<Survivor>)
    requires Honest(v, ask, survivors)
    ensures forall r :: r in ReportAll(ask, f, details, v.users, survivors).results ==> NamedRight(v, ask.requester, r)
  {
    if survivors != [] {
      ReportedAreNamedRight(v, ask, f, details, survivors[..|survivors| - 1]);
      var s := survivors[|survivors| - 1];
      assert s in survivors;
    }
  }

  /** In every answer, whatever fails along the way, a result carries the target's name and avatar if and only if the
      target is a mutual follow or in open discovery, and has a profile. The level of a mutual follow plays no part. */
  lemma ResultsAreNamedRight(dist: Metric, v: View, ask: Ask, f: Faults, m: Counters, g: GeoSet, d: DetailKeys,
                             names: seq<string>, r: NearbyResult)
    requires Query(dist, v, ask, f, m, g, d, names).result.Ok?
    requires r in Query(dist, v, ask, f, m, g, d, names).result.value
    ensures NamedRight(v, ask.requester, r)
    ensures r.displayName != "" || r.avatarUrl != "" ==> Named(v, ask.requester, r.userId) && r.userId in v.users
  {
    var raw := Candidates(names, g, ask.requester);
    var m1 := RateLimiter.AllowCounters(m, ask.now, DailyKey(ask.requester), DAILY_WINDOW, f.daily);
    var survivors := ScanAll(dist, v, ask, f, m1, raw).survivors;
    ScanIsHonest(dist, v, ask, f, m1, raw);
    ReportedAreNamedRight(v, ask, f, Hydrated(IdsOf(survivors), d, ask.now), survivors);
  }

  // ----- whose track is shown -----

  /** The result carries the track of a target that shares it, and none otherwise. */
  predicate TrackRight(d: DetailKeys, now: int, r: NearbyResult) {
    Present(d, r.userId, now)
    && r.trackId == if d[r.userId].detail.shareTrack then d[r.userId].detail.trackId else ""
  }

  lemma {:induction false} ReportedTracksAreRight(ask: Ask, f: Faults, ids: seq<string>, d: DetailKeys,
                                                  users: map<string, Profile>, survivors: seq<Survivor>)
    ensures forall r :: r in ReportAll(ask, f, Hydrated(ids, d, ask.now), users, survivors).results ==>
              TrackRight(d, ask.now, r)
  {
    if survivors != [] {
      ReportedTracksAreRight(ask, f, ids, d, users, survivors[..|survivors| - 1]);
    }
  }

  /** In every answer, whatever fails along the way, a result is of somebody live in the index, and carries the stored
      track if and only if its owner shares it. */
  lemma ResultsShareTracksRight(dist: Metric, v: View, ask: Ask, f: Faults, m: Counters, g: GeoSet, d: DetailKeys,
                                names: seq<string>, r: NearbyResult)
    requires Query(dist, v, ask, f, m, g, d, names).result.Ok?
    requires r in Query(dist, v, ask, f, m, g, d, names).result.value
    ensures Present(d, r.userId, ask.now)
    ensures r.trackId == if d[r.userId].detail.shareTrack then d[r.userId].detail.trackId else ""
  {
    var raw := Candidates(names, g, ask.requester);
    var m1 := RateLimiter.AllowCounters(m, ask.now, DailyKey(ask.requester), DAILY_WINDOW, f.daily);
    var survivors := ScanAll(dist, v, ask, f, m1, raw).survivors;
    ReportedTracksAreRight(ask, f, IdsOf(survivors), d, v.users, survivors);
  }

  /** The index with another track stored for `t`. */
  function Playing(d: DetailKeys, t: string, trackId: string): DetailKeys
    requires t in d
  {
    d[t := d[t].(detail := d[t].detail.(trackId := trackId))]
  }

  lemma {:induction false} ReportIgnoresUnshared(ask: Ask, f: Faults, ids: seq<string>, d: DetailKeys, t: string,
                                                 trackId: string, users: map<string, Profile>, survivors: seq<Survivor>)
    requires t in d && !d[t].detail.shareTrack
    ensures ReportAll(ask, f, Hydrated(ids, d, ask.now), users, survivors)
            == ReportAll(ask, f, Hydrated(ids, Playing(d, t, trackId), ask.now), users, survivors)
  {
    if survivors != [] {
      ReportIgnoresUnshared(ask, f, ids, d, t, trackId, users, survivors[..|survivors| - 1]);
    }
  }

  /** What somebody who does not share the track plays changes nothing in any query: no answer, no budget, no entry. */
  lemma UnsharedTrackChangesNothing(dist: Metric, v: View, ask: Ask, f: Faults, m: Counters, g: GeoSet, d: DetailKeys,
                                    names: seq<string>, t: string, trackId: string)
    requires t in d && !d[t].detail.shareTrack
    ensures Query(dist, v, ask, f, m, g, d, names) == Query(dist, v, ask, f, m, g, Playing(d, t, trackId), names)
  {
    var raw := Candidates(names, g, ask.requester);
    var m1 := RateLimiter.AllowCounters(m, ask.now, DailyKey(ask.requester), DAILY_WINDOW, f.daily);
    var survivors := ScanAll(dist, v, ask, f, m1, raw).survivors;
    ReportIgnoresUnshared(ask, f, IdsOf(survivors), d, t, trackId, v.users, survivors);
  }

  // ----- all levels but open discovery are alike -----

  /** The same survivor but for a level below open discovery. */
  predicate LevelTwin(s: Survivor, t: Survivor) {
    s.userId == t.userId && s.dist == t.dist && s.mutual == t.mutual && NeedsProfile(s) == NeedsProfile(t)
  }

  ghost predicate LevelTwins(ss: seq<Survivor>, ts: seq<Survivor>) {
    |ss| == |ts| && forall i :: 0 <= i < |ss| ==> LevelTwin(ss[i], ts[i])
  }

  ghost predicate LevelTwinScans(s: Scan, t: Scan) {
    s.counters == t.counters && s.failed == t.failed && LevelTwins(s.survivors, t.survivors)
  }

  /** The view with one target's level set. */
  function AtLevel(v: View, t: string, level: int): View {
    v.(rows := v.rows[t := SettingsOf(v.rows, t).(revealLevel := level)])
  }

  lemma ChargeLevelTwins(ask: Ask, f: Faults, a: Scan, b: Scan, s: Survivor, t: Survivor)
    requires LevelTwinScans(a, b) && LevelTwin(s, t)
    ensures LevelTwinScans(Charge(ask, f, a, s), Charge(ask, f, b, t))
  {
  }

  lemma ConsiderLevelTwins(dist: Metric, v: View, t: string, level: int, ask: Ask, f: Faults, a: Scan, b: Scan,
                           c: Candidate)
    requires SettingsOf(v.rows, t).revealLevel != REVEAL_OPEN_DISCOVERY && level != REVEAL_OPEN_DISCOVERY
    requires LevelTwinScans(a, b)
    ensures LevelTwinScans(Consider(dist, v, ask, f, a, c), Consider(dist, AtLevel(v, t, level), ask, f, b, c))
  {
    var d, mutual := dist(ask.pos, c.position), MutualFollow(v.follows, ask.requester, c.userId);
    var row, row' := SettingsOf(v.rows, c.userId), SettingsOf(AtLevel(v, t, level).rows, c.userId);
    assert row' == if c.userId == t then row.(revealLevel := level) else row;
    ChargeLevelTwins(ask, f, a, b, Survivor(c.userId, d, mutual, row), Survivor(c.userId, d, mutual, row'));
  }

  lemma {:induction false} ScanLevelTwins(dist: Metric, v: View, t: string, level: int, ask: Ask, f: Faults,
                                          m: Counters, raw: seq<Candidate>)
    requires SettingsOf(v.rows, t).revealLevel != REVEAL_OPEN_DISCOVERY && level != REVEAL_OPEN_DISCOVERY
    ensures LevelTwinScans(ScanAll(dist, v, ask, f, m, raw), ScanAll(dist, AtLevel(v, t, level), ask, f, m, raw))
  {
    if raw != [] {
      var init := raw[..|raw| - 1];
      ScanLevelTwins(dist, v, t, level, ask, f, m, init);
      ConsiderLevelTwins(dist, v, t, level, ask, f, ScanAll(dist, v, ask, f, m, init),
                         ScanAll(dist, AtLevel(v, t, level), ask, f, m, init), raw[|raw| - 1]);
    }
  }

  lemma {:induction false} ReportLevelTwins(ask: Ask, f: Faults, details: map<string, Detail>,
                                            users: map<string, Profile>, ss: seq<Survivor>, ts: seq<Survivor>)
    requires LevelTwins(ss, ts)
    ensures ReportAll(ask, f, details, users, ss) == ReportAll(ask, f, details, users, ts)
  {
    if ss != [] {
      ReportLevelTwins(ask, f, details, users, ss[..|ss| - 1], ts[..|ts| - 1]);
      assert LevelTwin(ss[|ss| - 1], ts[|ts| - 1]);
    }
  }

  lemma LevelTwinsNeedTheSame(ss: seq<Survivor>, ts: seq<Survivor>)
    requires LevelTwins(ss, ts)
    ensures IdsOf(ss) == IdsOf(ts) && AnyNeedsProfile(ss) == AnyNeedsProfile(ts)
  {
    assert forall i :: 0 <= i < |ss| ==> LevelTwin(ss[i], ts[i]);
    if s :| s in ss && NeedsProfile(s) {
      var i :| 0 <= i < |ss| && ss[i] == s;
      assert ts[i] in ts;
    }
    if t :| t in ts && NeedsProfile(t) {
      var i :| 0 <= i < |ts| && ts[i] == t;
      assert ss[i] in ss;
    }
  }

  /** Levels 0 and 1 act alike, and so does every level but open discovery: switching a target among them changes
      nothing in any query, no answer, no budget, no audit entry, whatever fails. */
  lemma LevelsAlike(dist: Metric, v: View, t: string, level: int, ask: Ask, f: Faults, m: Counters, g: GeoSet,
                    d: DetailKeys, names: seq<string>)
    requires SettingsOf(v.rows, t).revealLevel != REVEAL_OPEN_DISCOVERY && level != REVEAL_OPEN_DISCOVERY
    ensures Query(dist, v, ask, f, m, g, d, names) == Query(dist, AtLevel(v, t, level), ask, f, m, g, d, names)
  {
    var raw := Candidates(names, g, ask.requester);
    var m1 := RateLimiter.AllowCounters(m, ask.now, DailyKey(ask.requester), DAILY_WINDOW, f.daily);
    ScanLevelTwins(dist, v, t, level, ask, f, m1, raw);
    var ss := ScanAll(dist, v, ask, f, m1, raw).survivors;
    var ts := ScanAll(dist, AtLevel(v, t, level), ask, f, m1, raw).survivors;
    LevelTwinsNeedTheSame(ss, ts);
    ReportLevelTwins(ask, f, Hydrated(IdsOf(ss), d, ask.now), v.users, ss, ts);
  }

  // ----- two concrete queries -----

  /** Distance along one axis. */
  function Apart(a: GeoPosition, b: GeoPosition): real {
    if a.lat < b.lat then b.lat - a.lat else a.lat - b.lat
  }

  /** Somebody discoverable within 1 km, at the lowest reveal level. */
  function Anonymous(user: string): PrivacySettings {
    PrivacySettings(user, VISIBILITY_EVERYONE, false, true, Some(0), Some(CONSENT_VALIDITY), 1000, REVEAL_ANONYMOUS,
                    false, 0)
  }

  const Friends := View(map["t" := Anonymous("t")], {}, {("r", "t"), ("t", "r")}, map["t" := Profile("Tia", "tia.png")])
  const Asking := Ask("r", Anonymous("r"), GeoPosition(0.0, 0.0), 1)

  function OneMember(lat: real): GeoSet {
    map["t" := GeoPosition(lat, 0.0)]
  }

  const LiveMember: DetailKeys := map["t" := Stored(Detail("", false, VISIBILITY_EVERYONE, 0), 90)]

  lemma SeesTheMember(lat: real)
    requires 0.0 <= lat < 1000.0
    ensures IsSearchReply(Apart, OneMember(lat), Asking.pos, SearchRadius(Asking), ["t"])
    ensures DailyFree(map[], Asking) && PairFree(map[], Asking, "t")
    ensures Visible(Apart, Friends, Asking, OneMember(lat), LiveMember, "t")
  {
    assert BlockedEitherWay(Friends.blocks, "r", "t") == false;
  }

  /** A mutual follow at level 0, meant to show no name or avatar to anyone, is answered with both. */
  lemma MutualAtLevelZeroIsNamed()
    ensures SettingsOf(Friends.rows, "t").revealLevel == REVEAL_ANONYMOUS
    ensures var o := Query(Apart, Friends, Asking, NoFaults, map[], OneMember(100.0), LiveMember, ["t"]);
            && o.result.Ok?
            && exists r :: r in o.result.value && r.userId == "t" && r.displayName == "Tia" && r.avatarUrl == "tia.png"
  {
    var g := OneMember(100.0);
    SeesTheMember(100.0);
    IndexAgreesWithFullScan(Apart, Friends, Asking, NoFaults, map[], g, LiveMember, ["t"]);
    var o := Query(Apart, Friends, Asking, NoFaults, map[], g, LiveMember, ["t"]);
    assert Listed(o.result.value, "t");
    var r :| r in o.result.value && r.userId == "t";
    ResultsAreNamedRight(Apart, Friends, Asking, NoFaults, map[], g, LiveMember, ["t"], r);
  }

  lemma InPaddingOrBeyond(lat: real)
    requires lat == 1100.0 || lat == 2000.0
    ensures Raw(["t"], Apart, OneMember(lat), Asking) == if lat == 1100.0 then [Candidate("t", GeoPosition(lat, 0.0))] else []
    ensures BucketFor(Apart(Asking.pos, OneMember(lat)["t"])) == Bucket3
  {
    var none: seq<string> := [];
    assert ["t"] == none + ["t"];
    RawSnoc(none, "t", Apart, OneMember(lat), Asking);
    assert InRange(none, Apart, OneMember(lat), Asking.pos, SearchRadius(Asking)) == none;
    assert Raw(none, Apart, OneMember(lat), Asking) == [];
  }

  /** Two indexes in the same buckets that the daily budget tells apart: with a radius of 1000 m a member at 1100 m is in
      the padding ring, one at 2000 m is not; nobody is answered either way, but only the first query is counted. */
  lemma PaddingRingShowsInDailyBudget()
    ensures SameBuckets(Apart, Asking, OneMember(1100.0), Asking, OneMember(2000.0)) && RadiiOk(Friends, Asking)
    ensures var near := InRange(["t"], Apart, OneMember(1100.0), Asking.pos, SearchRadius(Asking));
            var far := InRange(["t"], Apart, OneMember(2000.0), Asking.pos, SearchRadius(Asking));
            var o := Query(Apart, Friends, Asking, NoFaults, map[], OneMember(1100.0), LiveMember, near);
            var p := Query(Apart, Friends, Asking, NoFaults, map[], OneMember(2000.0), LiveMember, far);
            o.result == p.result && o.counters != p.counters
  {
    InPaddingOrBeyond(1100.0);
    InPaddingOrBeyond(2000.0);
    ValidRadii(1000);
    OnlyBucketsMatterWithoutFaults(Apart, Friends, Asking, OneMember(1100.0), Asking, OneMember(2000.0), map[],
                                   LiveMember, ["t"]);
  }
}
