/** The frames a client sends: which of them ask a query, from where and over which index, and which are refused. */
module NearbyFrames {
  import opened Wrappers
  import opened RedisCounters
  import opened RedisGeo
  import opened Presence
  import opened Database
  import opened GeoStore
  import opened Nearby
  import opened NearbyFaults
  import opened NearbyTheorems
  import opened NearbyCounters

  ghost predicate ListsVisible(dist: Metric, v: View, ask: Ask, m: Counters, g: GeoSet, d: DetailKeys,
                               results: seq<NearbyResult>) {
    && Unique(results)
    && (forall t :: Listed(results, t) <==> DailyFree(m, ask) && Visible(dist, v, ask, g, d, t) && PairFree(m, ask, t))
    && (forall r :: r in results ==> r.userId in g && r.userId in d && r == Disclosed(dist, v, ask, g, d, r.userId))
  }

  predicate Records(ask: Ask, results: seq<NearbyResult>, entries: seq<AuditLogEntry>) {
    && |entries| == |results|
    && forall i :: 0 <= i < |results| ==>
         entries[i] == AuditLogEntry(ask.requester, results[i].userId, ask.now, results[i].bucket, ENDPOINT)
  }

  /** If `o` has an answer, it lists exactly the visible users of the index whose pair budget was free, if the daily one
      was; its entries record the answer, and its hits are charged. */
  ghost predicate AnswersFor(dist: Metric, v: View, ask: Ask, m: Counters, g: GeoSet, d: DetailKeys, o: Outcome) {
    o.result.Ok? ==>
      && ListsVisible(dist, v, ask, m, g, d, o.result.value)
      && Records(ask, o.result.value, o.appended)
      && Charges(dist, v, ask, m, g, o.counters)
  }

  lemma QueryLists(dist: Metric, v: View, ask: Ask, f: Faults, m: Counters, g: GeoSet, d: DetailKeys, names: seq<string>)
    requires IsSearchReply(dist, g, ask.pos, SearchRadius(ask), names)
    requires Query(dist, v, ask, f, m, g, d, names).result.Ok?
    ensures ListsVisible(dist, v, ask, m, g, d, Query(dist, v, ask, f, m, g, d, names).result.value)
  {
    if DailyFree(m, ask) {
      IndexAgreesWithFullScan(dist, v, ask, f, m, g, d, names);
    } else {
      AnswerAsWithoutFaults(dist, v, ask, f, m, g, d, names);
      UsedUpAnswersNobody(dist, v, ask, m, g, d, names);
    }
  }

  /** Every query answers for the index it is asked over; with nothing failing it does answer. */
  lemma QueryAnswersFor(dist: Metric, v: View, ask: Ask, f: Faults, m: Counters, g: GeoSet, d: DetailKeys,
                        names: seq<string>)
    requires IsSearchReply(dist, g, ask.pos, SearchRadius(ask), names)
    ensures AnswersFor(dist, v, ask, m, g, d, Query(dist, v, ask, f, m, g, d, names))
    ensures f == NoFaults ==> Query(dist, v, ask, f, m, g, d, names).result.Ok?
  {
    if Query(dist, v, ask, f, m, g, d, names).result.Ok? {
      QueryLists(dist, v, ask, f, m, g, d, names);
      QueryCharges(dist, v, ask, f, m, g, d, names);
      AuditMatchesDisclosure(dist, v, ask, f, m, g, d, names);
    }
    if DailyFree(m, ask) {
      IndexAgreesWithFullScan(dist, v, ask, f, m, g, d, names);
    } else {
      UsedUpAnswersNobody(dist, v, ask, m, g, d, names);
    }
  }

  // ----- heartbeats -----

  predicate Live(g: GeoSet, d: DetailKeys, user: string, now: int) {
    user in g && Present(d, user, now)
  }

  /** The heartbeat of a consenting user who is live in the index asks a query from the stored position, over the index
      in which only the user's own detail lives longer. */
  lemma HeartbeatAnswers(dist: Metric, v: View, user: string, ttl: Ttl, f: Faults, touch: GeoStore.Fault, m: Counters,
                         g: GeoSet, d: DetailKeys, now: int, names: seq<string>)
    requires SettingsOf(v.rows, user).HasActiveConsent(now) && !f.settings && touch.NoFault? && Live(g, d, user, now)
    requires IsSearchReply(dist, g, g[user], SearchRadius(Ask(user, SettingsOf(v.rows, user), g[user], now)), names)
    ensures var frame := HeartbeatFrame(dist, v, user, ttl, f, touch, m, g, d, now, names);
            && frame.geo == g && frame.details == d[user := Stored(d[user].detail, now + ttl)]
            && AnswersFor(dist, v, Ask(user, SettingsOf(v.rows, user), g[user], now), m, g, frame.details, frame.query)
            && (f == NoFaults ==> frame.query.result.Ok?)
  {
    QueryAnswersFor(dist, v, Ask(user, SettingsOf(v.rows, user), g[user], now), f, m, g,
                    d[user := Stored(d[user].detail, now + ttl)], names);
  }

  /** A command of the renewal fails that is reached: the first, the second if the user has a detail, or the third if
      the user has a position too. */
  predicate TouchFails(g: GeoSet, d: DetailKeys, user: string, now: int, touch: GeoStore.Fault) {
    touch.FirstFails? || (touch.SecondFails? && Present(d, user, now)) || (touch.ThirdFails? && Live(g, d, user, now))
  }

  /** Any other heartbeat of a consenting user leaves everything as it is: it is an error if the settings or the index
      cannot be read, and answered by nobody if the user is not live. */
  lemma OtherHeartbeats(dist: Metric, v: View, user: string, ttl: Ttl, f: Faults, touch: GeoStore.Fault, m: Counters,
                        g: GeoSet, d: DetailKeys, now: int, names: seq<string>)
    requires SettingsOf(v.rows, user).HasActiveConsent(now)
    requires f.settings || TouchFails(g, d, user, now, touch) || !Live(g, d, user, now)
    ensures HeartbeatFrame(dist, v, user, ttl, f, touch, m, g, d, now, names)
            == FrameOutcome(g, d, Outcome(m, [], if f.settings || TouchFails(g, d, user, now, touch)
                                                 then Err(PresenceError.Unavailable) else Ok([])))
  {
  }

  // ----- updates -----

  predicate WriteFails(write: GeoStore.Fault) {
    write.FirstFails? || write.SecondFails?
  }

  /** The index an update leaves behind: without a hidden user, with any other at the new position, unless a command
      failed. */
  predicate Written(row: PrivacySettings, user: string, pos: GeoPosition, trackId: string, ttl: Ttl,
                    write: GeoStore.Fault, g: GeoSet, d: DetailKeys, now: int, g': GeoSet, d': DetailKeys) {
    var hidden := row.paused || row.visibility == VISIBILITY_INVISIBLE;
    && g' == (if write.FirstFails? then g else if hidden then g - {user} else g[user := pos])
    && d' == (if WriteFails(write) then d
              else if hidden then d - {user}
              else d[user := Stored(Detail(trackId, row.shareTrack, row.visibility, now), now + ttl)])
  }

  /** The update of a consenting user whose jitter worked, and who is hidden or whose write worked, asks a query from the
      jittered position over the index it leaves behind. */
  lemma UpdateAnswers(dist: Metric, v: View, user: string, pos: GeoPosition, trackId: string, ttl: Ttl, f: Faults,
                      write: GeoStore.Fault, m: Counters, g: GeoSet, d: DetailKeys, now: int, names: seq<string>)
    requires SettingsOf(v.rows, user).HasActiveConsent(now) && !f.settings
    requires SettingsOf(v.rows, user).Hidden() || !WriteFails(write)
    requires var ask := Ask(user, SettingsOf(v.rows, user), pos, now);
             IsSearchReply(dist,
               UpdateFrame(dist, v, user, Some(pos), trackId, ttl, f, write, m, g, d, now, names).geo, pos,
               SearchRadius(ask), names)
    ensures var frame := UpdateFrame(dist, v, user, Some(pos), trackId, ttl, f, write, m, g, d, now, names);
            && Written(SettingsOf(v.rows, user), user, pos, trackId, ttl, write, g, d, now, frame.geo, frame.details)
            && AnswersFor(dist, v, Ask(user, SettingsOf(v.rows, user), pos, now), m, frame.geo, frame.details,
                          frame.query)
            && (f == NoFaults ==> frame.query.result.Ok?)
  {
    var row := SettingsOf(v.rows, user);
    var e := OwnEntry(user, row, pos, trackId, now);
    QueryAnswersFor(dist, v, Ask(user, row, pos, now), f, m, GeoAfterUpdate(g, e, row.Hidden(), write),
                    DetailsAfterUpdate(d, e, row.Hidden(), now, ttl, write), names);
  }

  /** Any other update of a consenting user is an error, charges and records nothing, and leaves the index as it is, but
      for the position if only the second command of the write failed. */
  lemma OtherUpdates(dist: Metric, v: View, user: string, jittered: Option<GeoPosition>, trackId: string, ttl: Ttl,
                     f: Faults, write: GeoStore.Fault, m: Counters, g: GeoSet, d: DetailKeys, now: int,
                     names: seq<string>)
    requires SettingsOf(v.rows, user).HasActiveConsent(now)
    requires f.settings || jittered.None? || (!SettingsOf(v.rows, user).Hidden() && WriteFails(write))
    ensures var g' := if !f.settings && jittered.Some? && write.SecondFails? then g[user := jittered.value] else g;
            UpdateFrame(dist, v, user, jittered, trackId, ttl, f, write, m, g, d, now, names)
            == FrameOutcome(g', d, Outcome(m, [], Err(PresenceError.Unavailable)))
  {
  }
}
