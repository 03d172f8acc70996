/** The vocabulary of proximity discovery: settings, consent, buckets, limits, errors. Times are milliseconds. */
module Presence {
  import opened Wrappers
  import opened RedisGeo
  import opened LimiterRun

  const VISIBILITY_INVISIBLE := "invisible"
  const VISIBILITY_FRIENDS_ONLY := "friends_only"
  const VISIBILITY_EVERYONE := "everyone"

  const REVEAL_ANONYMOUS := 0
  const REVEAL_CONNECTIONS := 1
  const REVEAL_OPEN_DISCOVERY := 2

  const ALLOWED_RADII_M := [150, 1000, 5000, 15000]
  const DEFAULT_RADIUS_M := 1000
  const DAY := 24 * 60 * 60 * 1000
  const CONSENT_VALIDITY := 180 * DAY
  const JITTER_RADIUS_M := 75.0
  const SEARCH_PADDING := 2.0 * JITTER_RADIUS_M
  const ENDPOINT := "ws:/v1/presence/connect"

  const PAIR_LIMIT := 1
  const PAIR_WINDOW := 30000
  const DAILY_LIMIT := 200
  const DAILY_WINDOW := DAY

  const PAIR_PREFIX := "presence:rl:pair:"
  const DAILY_PREFIX := "presence:rl:daily:"
  const UPDATE_PREFIX := "presence:rl:updates:"

  datatype PresenceError =
    | InvalidInput
    | ConsentRequired
    | ConsentExpired
    | CannotBlockSelf
    | InvalidRadius
    | InvalidRevealLevel
    | InvalidVisibility
    | MfaRequired
    | Unavailable  // a store, limiter, resolver or log did not answer

  datatype DistanceBucket = BucketNone | Bucket1 | Bucket2 | Bucket3 | Bucket4

  datatype PrivacySettings = PrivacySettings(
    userId: string,
    visibility: string,
    shareTrack: bool,
    consentEnabled: bool,
    consentTs: Option<int>,
    renewDue: Option<int>,
    radiusM: int,
    revealLevel: int,
    paused: bool,
    updatedAt: int)
  {
    predicate HasActiveConsent(now: int) {
      consentEnabled && renewDue.Some? && now < renewDue.value
    }

    predicate Hidden() {
      paused || visibility == VISIBILITY_INVISIBLE
    }
  }

  datatype AuditLogEntry = AuditLogEntry(requesterId: string, targetId: string, occurredAt: int,
                                         bucket: DistanceBucket, endpoint: string)
  datatype Profile = Profile(displayName: string, avatarUrl: string)
  datatype NearbyResult = NearbyResult(userId: string, displayName: string, avatarUrl: string,
                                       bucket: DistanceBucket, trackId: string)

  const FRAME_NEARBY_UPDATE := "nearby_update"
  const FRAME_DRAIN := "drain"

  /** What a connection is sent. */
  datatype Frame = Frame(kind: string, users: seq<NearbyResult>, reconnectHint: string)

  /** The row of a user who never configured anything: off, invisible, paused. */
  function DefaultPrivacySettings(user: string): PrivacySettings {
    PrivacySettings(user, VISIBILITY_INVISIBLE, false, false, None, None, DEFAULT_RADIUS_M, REVEAL_ANONYMOUS, true, 0)
  }

  function SettingsOf(rows: map<string, PrivacySettings>, user: string): PrivacySettings {
    if user in rows then rows[user] else DefaultPrivacySettings(user)
  }

  predicate IsValidRadius(m: int) {
    m in ALLOWED_RADII_M
  }

  predicate IsValidRevealLevel(l: int) {
    l == REVEAL_ANONYMOUS || l == REVEAL_CONNECTIONS || l == REVEAL_OPEN_DISCOVERY
  }

  predicate IsValidVisibility(v: string) {
    v == VISIBILITY_INVISIBLE || v == VISIBILITY_FRIENDS_ONLY || v == VISIBILITY_EVERYONE
  }

  function CheckConsent(st: PrivacySettings, now: int): Result<(), PresenceError> {
    if !st.consentEnabled then Err(ConsentRequired)
    else if !st.HasActiveConsent(now) then Err(ConsentExpired)
    else Ok(())
  }

  function BucketFor(distanceM: real): DistanceBucket {
    if distanceM < 150.0 then Bucket1
    else if distanceM < 1000.0 then Bucket2
    else if distanceM < 5000.0 then Bucket3
    else if distanceM < 15000.0 then Bucket4
    else BucketNone
  }

  // ----- limiter keys -----

  /** Directional: the reverse pair has a budget of its own. */
  function PairKey(requester: string, target: string): string {
    PAIR_PREFIX + requester + ":" + target
  }

  function DailyKey(requester: string): string {
    DAILY_PREFIX + requester
  }

  /** The budget for a connection's own update frames. */
  function UpdateFrameKey(user: string): string {
    UPDATE_PREFIX + user
  }

  /** Every limiter key of the query path, with the limit and window it is always called with. */
  const QueryPolicy := Policy(
    (key: string) => if PAIR_PREFIX <= key then PAIR_LIMIT else DAILY_LIMIT,
    (key: string) => if PAIR_PREFIX <= key then PAIR_WINDOW else DAILY_WINDOW)

  lemma PrefixDecides(requester: string, target: string)
    ensures PAIR_PREFIX <= PairKey(requester, target)
    ensures !(PAIR_PREFIX <= DailyKey(requester))
  {
    assert PairKey(requester, target) == PAIR_PREFIX + (requester + ":" + target);
    assert DailyKey(requester)[12] == 'd' && PAIR_PREFIX[12] == 'p';
  }

  lemma PairAndDailyKeysDiffer(r: string, t: string, q: string)
    ensures PairKey(r, t) != DailyKey(q)
  {
    PrefixDecides(r, t);
    PrefixDecides(q, t);
  }

  /** Nor is a budget for update frames any of these, or another user's. */
  lemma UpdateFrameKeysAreApart(u: string, v: string, r: string, t: string, q: string)
    ensures UpdateFrameKey(u) != PairKey(r, t) && UpdateFrameKey(u) != DailyKey(q)
    ensures UpdateFrameKey(u) == UpdateFrameKey(v) ==> u == v
  {
    PrefixDecides(r, t);
    assert UpdateFrameKey(u)[12] == 'u' && DailyKey(q)[12] == 'd' && PAIR_PREFIX[12] == 'p';
    assert UpdateFrameKey(u)[|UPDATE_PREFIX|..] == u && UpdateFrameKey(v)[|UPDATE_PREFIX|..] == v;
  }

  lemma DailyPolicyIs(u: string)
    ensures QueryPolicy.limit(DailyKey(u)) == DAILY_LIMIT && QueryPolicy.window(DailyKey(u)) == DAILY_WINDOW
  {
    PrefixDecides(u, u);
  }

  lemma PairPolicyIs(u: string, t: string)
    ensures QueryPolicy.limit(PairKey(u, t)) == PAIR_LIMIT && QueryPolicy.window(PairKey(u, t)) == PAIR_WINDOW
  {
    PrefixDecides(u, t);
  }

  lemma PairKeysOfOneRequesterDiffer(r: string, t1: string, t2: string)
    requires PairKey(r, t1) == PairKey(r, t2)
    ensures t1 == t2
  {
    var p := PAIR_PREFIX + r + ":";
    assert PairKey(r, t1)[|p|..] == t1 && PairKey(r, t2)[|p|..] == t2;
  }

  /** Two pairs share a key only if they are the same pair, as long as requester ids hold no colon. */
  lemma PairKeyInjective(r1: string, t1: string, r2: string, t2: string)
    requires ':' !in r1 && ':' !in r2
    requires PairKey(r1, t1) == PairKey(r2, t2)
    ensures r1 == r2 && t1 == t2
  {
    var a, b := r1 + ":" + t1, r2 + ":" + t2;
    assert PairKey(r1, t1) == PAIR_PREFIX + a && PairKey(r2, t2) == PAIR_PREFIX + b;
    assert (PAIR_PREFIX + a)[|PAIR_PREFIX|..] == a && (PAIR_PREFIX + b)[|PAIR_PREFIX|..] == b;
    assert a == b;
    assert a[|r1|] == ':' && b[|r2|] == ':';
    assert r1 == a[..|r1|] && r2 == b[..|r2|];
    PairKeysOfOneRequesterDiffer(r1, t1, t2);
  }

  /** With a colon in an id two different pairs can share one budget. */
  lemma ColonsMergePairs()
    ensures PairKey("a:b", "c") == PairKey("a", "b:c")
  {
    assert PairKey("a:b", "c") == PAIR_PREFIX + "a:b:c";
    assert PairKey("a", "b:c") == PAIR_PREFIX + "a:b:c";
  }
}
