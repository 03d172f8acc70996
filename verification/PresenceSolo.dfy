/** An undisturbed query of the presence machine is the query of the pipeline: same answer, same budgets, same audit. */
module PresenceSolo {
  import opened Wrappers
  import opened RedisCounters
  import opened RedisGeo
  import opened Presence
  import opened Database
  import opened PresenceRun
  import opened NearbyFaults
  import Nearby
  import GeoStore
  import RateLimiter
  import L = LimiterRun
  import Runs

  // ----- the limiter alone -----

  /** The limiter's keys and the plain counters say the same. */
  ghost predicate Match(lim: L.State, m: Counters) {
    forall key :: Lookup(m, key) == L.Get(lim, key).counter
  }

  /** The limiter is in order, agrees with the counters, and does not know caller `q` yet. */
  ghost predicate LimiterOk(lim: L.State, m: Counters, q: nat) {
    L.Inv(QueryPolicy, lim) && Match(lim, m) && forall key :: q !in L.Get(lim, key).waiting
  }

  /** One call of the limiter by one caller: INCR, and EXPIRE if it has to. */
  function CallAlone(lim: L.State, q: nat, key: string): L.State {
    var s1 := L.Do(QueryPolicy, lim, L.IncrCall(q, key));
    if q in L.Get(s1, key).waiting then L.Do(QueryPolicy, s1, L.ExpireCall(q, key)) else s1
  }

  function Allowed(m: Counters, now: int, key: string): bool {
    var v := RateLimiter.AllowVerdict(m, now, key, QueryPolicy.limit(key), QueryPolicy.window(key), RateLimiter.NoFault);
    v.Ok? && v.value.allowed
  }

  function Charged(m: Counters, now: int, key: string): Counters {
    RateLimiter.AllowCounters(m, now, key, QueryPolicy.window(key), RateLimiter.NoFault)
  }

  lemma CallTouchesOneKey(lim: L.State, q: nat, key: string, other: string)
    requires other != key
    ensures L.Get(CallAlone(lim, q, key), other) == L.Get(lim, other)
  {
  }

  lemma ChargedTouchesOneKey(m: Counters, now: int, key: string, other: string)
    requires other != key
    ensures Lookup(Charged(m, now, key), other) == Lookup(m, other)
  {
  }

  lemma CallKeepsInv(lim: L.State, q: nat, key: string)
    requires L.Inv(QueryPolicy, lim)
    ensures L.Inv(QueryPolicy, CallAlone(lim, q, key)) && CallAlone(lim, q, key).now == lim.now
  {
    PolicyIsPositive();
    L.StepKeepsInv(QueryPolicy, lim, L.IncrCall(q, key));
    var s1 := L.Do(QueryPolicy, lim, L.IncrCall(q, key));
    if q in L.Get(s1, key).waiting {
      L.StepKeepsInv(QueryPolicy, s1, L.ExpireCall(q, key));
    }
  }

  lemma CallEndsWaiting(lim: L.State, q: nat, key: string)
    requires q !in L.Get(lim, key).waiting
    ensures q !in L.Get(CallAlone(lim, q, key), key).waiting
  {
  }

  /** The call counts and decides as the one-call specification says. */
  lemma CallIsAllow(lim: L.State, q: nat, key: string, m: Counters)
    requires LimiterOk(lim, m, q)
    ensures LimiterOk(CallAlone(lim, q, key), Charged(m, lim.now, key), q)
    ensures CallAlone(lim, q, key).now == lim.now
    ensures |L.Get(CallAlone(lim, q, key), key).log|
            == |L.Get(lim, key).log| + (if Allowed(m, lim.now, key) then 1 else 0)
  {
    L.GetKeyInv(QueryPolicy, lim, key);
    L.SoloCallIsAllow(QueryPolicy, lim, q, key, m);
    CallKeepsInv(lim, q, key);
    CallEndsWaiting(lim, q, key);
    forall other
      ensures Lookup(Charged(m, lim.now, key), other) == L.Get(CallAlone(lim, q, key), other).counter
      ensures q !in L.Get(CallAlone(lim, q, key), other).waiting
    {
      if other != key {
        CallTouchesOneKey(lim, q, key, other);
        ChargedTouchesOneKey(m, lim.now, key, other);
      }
    }
  }

  // ----- steps of one query -----

  /** The steps that query `q` takes of its own accord when nothing fails. */
  predicate StepOf(s: Step, q: nat) {
    match s
    case Begin(p, _) => p == q
    case Stamp(p) => p == q
    case Search(p, _) => p == q
    case DailyIncr(p) => p == q
    case DailyExpire(p) => p == q
    case ReadTarget(p, _, _) => p == q
    case PairIncr(p) => p == q
    case PairExpire(p) => p == q
    case Detail(p, _) => p == q
    case Report(p) => p == q
    case _ => false
  }

  ghost predicate MovesAlone(w: World, w': World, q: nat) {
    exists s :: StepOf(s, q) && Enabled(w, s) && w' == Do(w, s)
  }

  ghost function MovesOf(q: nat): (World, World) -> bool {
    (w, w') => MovesAlone(w, w', q)
  }

  /** `w'` comes from `w` by steps of `q` only. */
  ghost predicate Alone(w: World, w': World, q: nat) {
    Runs.Leads(MovesOf(q), w, w')
  }

  lemma AloneOn(w: World, w1: World, q: nat, s: Step)
    requires Alone(w, w1, q) && StepOf(s, q) && Enabled(w1, s)
    ensures Alone(w, Do(w1, s), q)
  {
    assert MovesAlone(w1, Do(w1, s), q);
    Runs.LeadsOn(MovesOf(q), w, w1, Do(w1, s));
  }

  // ----- budgets -----

  /** Whether the call of `q` on `key` adds to the log of that key. */
  predicate Granted(lim: L.State, q: nat, key: string) {
    |L.Get(CallAlone(lim, q, key), key).log| > |L.Get(lim, key).log|
  }

  /** Whether the call of `q` on `key` has to arm the key after its INCR. */
  predicate Arms(lim: L.State, q: nat, key: string) {
    q in L.Get(L.Do(QueryPolicy, lim, L.IncrCall(q, key)), key).waiting
  }

  /** A caller that has to arm the key is admitted by its EXPIRE. */
  lemma ArmingGrants(lim: L.State, q: nat, key: string)
    requires L.KeyInv(L.Get(lim, key), QueryPolicy.limit(key), QueryPolicy.window(key), lim.now)
    requires QueryPolicy.limit(key) >= 1 && q !in L.Get(lim, key).waiting && Arms(lim, q, key)
    ensures Granted(lim, q, key)
  {
  }

  /** The limiter call is granted exactly if the one-call specification allows it. */
  lemma CallGrants(lim: L.State, q: nat, key: string, m: Counters)
    requires LimiterOk(lim, m, q) && QueryPolicy.limit(key) >= 1
    ensures Granted(lim, q, key) <==> Allowed(m, lim.now, key)
    ensures Arms(lim, q, key) ==> Granted(lim, q, key)
    ensures LimiterOk(CallAlone(lim, q, key), Charged(m, lim.now, key), q)
    ensures CallAlone(lim, q, key).now == lim.now
  {
    CallIsAllow(lim, q, key, m);
    L.GetKeyInv(QueryPolicy, lim, key);
    if Arms(lim, q, key) {
      ArmingGrants(lim, q, key);
    }
  }

  /** What the machine is once query `q` has its answer about the daily budget. */
  function AfterDaily(w: World, q: nat): World
    requires q in w.queries
  {
    var key := DailyKey(w.queries[q].user);
    w.(lim := CallAlone(w.lim, q, key),
       queries := w.queries[q := w.queries[q].(phase := if Granted(w.lim, q, key) then Filtering else Done)])
  }

  lemma DailySteps(w0: World, w: World, q: nat)
    requires Alone(w0, w, q) && q in w.queries && w.queries[q].phase.Daily?
    requires var key := DailyKey(w.queries[q].user); Arms(w.lim, q, key) ==> Granted(w.lim, q, key)
    ensures Alone(w0, AfterDaily(w, q), q)
  {
    var key := DailyKey(w.queries[q].user);
    var w1 := Do(w, DailyIncr(q));
    AloneOn(w0, w, q, DailyIncr(q));
    if Arms(w.lim, q, key) {
      AloneOn(w0, w1, q, DailyExpire(q));
      assert Do(w1, DailyExpire(q)).queries == AfterDaily(w, q).queries;
    } else {
      assert w1 == AfterDaily(w, q);
    }
  }

  /** Query `q` asks for its daily budget. */
  lemma DailyAlone(w0: World, w: World, q: nat, m: Counters)
    requires Alone(w0, w, q) && q in w.queries && w.queries[q].phase.Daily? && LimiterOk(w.lim, m, q)
    ensures Alone(w0, AfterDaily(w, q), q)
    ensures var key := DailyKey(w.queries[q].user);
            && (Granted(w.lim, q, key) <==> Allowed(m, w.lim.now, key))
            && LimiterOk(AfterDaily(w, q).lim, Charged(m, w.lim.now, key), q)
            && AfterDaily(w, q).lim.now == w.lim.now
  {
    DailyPolicyIs(w.queries[q].user);
    CallGrants(w.lim, q, DailyKey(w.queries[q].user), m);
    DailySteps(w0, w, q);
  }

  /** What the machine is once query `q` has its answer about the budget of the pair with `k`. */
  function AfterPair(w: World, q: nat, k: Kept): World
    requires q in w.queries
  {
    var query := w.queries[q];
    var key := PairKeyOf(query, k);
    var lim := CallAlone(w.lim, q, key);
    var log := L.Get(lim, key).log;
    w.(lim := lim,
       queries := w.queries[q :=
         if Granted(w.lim, q, key)
         then query.(held := query.held + [Held(k, if log == [] then 0 else |log| - 1)], i := query.i + 1,
                     phase := Filtering)
         else query.(i := query.i + 1, phase := Filtering)])
  }

  lemma PairArmed(w: World, q: nat, k: Kept)
    requires q in w.queries && w.queries[q].phase == Pairing(k)
    requires var key := PairKeyOf(w.queries[q], k); Arms(w.lim, q, key) && Granted(w.lim, q, key)
    ensures var w1 := Do(w, PairIncr(q));
            Enabled(w1, PairExpire(q)) && Do(w1, PairExpire(q)) == AfterPair(w, q, k)
  {
    var w1 := Do(w, PairIncr(q));
    assert w1.queries[q] == w.queries[q].(phase := PairArming(k));
    assert Do(w1, PairExpire(q)).queries == AfterPair(w, q, k).queries;
  }

  lemma PairSteps(w0: World, w: World, q: nat, k: Kept)
    requires Alone(w0, w, q) && q in w.queries && w.queries[q].phase == Pairing(k)
    requires var key := PairKeyOf(w.queries[q], k); Arms(w.lim, q, key) ==> Granted(w.lim, q, key)
    ensures Alone(w0, AfterPair(w, q, k), q)
  {
    AloneOn(w0, w, q, PairIncr(q));
    if Arms(w.lim, q, PairKeyOf(w.queries[q], k)) {
      PairArmed(w, q, k);
      AloneOn(w0, Do(w, PairIncr(q)), q, PairExpire(q));
    } else {
      assert Do(w, PairIncr(q)) == AfterPair(w, q, k);
    }
  }

  lemma PairAlone(w0: World, w: World, q: nat, k: Kept, m: Counters)
    requires Alone(w0, w, q) && q in w.queries && w.queries[q].phase == Pairing(k) && LimiterOk(w.lim, m, q)
    ensures Alone(w0, AfterPair(w, q, k), q)
    ensures var key := PairKeyOf(w.queries[q], k);
            && (Granted(w.lim, q, key) <==> Allowed(m, w.lim.now, key))
            && LimiterOk(AfterPair(w, q, k).lim, Charged(m, w.lim.now, key), q)
            && AfterPair(w, q, k).lim.now == w.lim.now
  {
    PairPolicyIs(w.queries[q].user, k.userId);
    CallGrants(w.lim, q, PairKeyOf(w.queries[q], k), m);
    PairSteps(w0, w, q, k);
  }

  // ----- the filter loop -----

  function ProspectOf(dist: GeoStore.Metric, ask: Nearby.Ask, c: GeoStore.Candidate): Prospect {
    Prospect(c.userId, dist(ask.pos, c.position))
  }

  function ProspectsOf(dist: GeoStore.Metric, ask: Nearby.Ask, raw: seq<GeoStore.Candidate>): seq<Prospect> {
    seq(|raw|, i requires 0 <= i < |raw| => ProspectOf(dist, ask, raw[i]))
  }

  /** Survivor `s` of the pipeline is what the machine holds. */
  predicate Same(h: Held, s: Nearby.Survivor) {
    h.kept.userId == s.userId && h.kept.dist == s.dist && h.kept.row == s.target
  }

  ghost predicate SameAll(held: seq<Held>, survivors: seq<Nearby.Survivor>) {
    |held| == |survivors| && forall i :: 0 <= i < |held| ==> Same(held[i], survivors[i])
  }

  /** Everything a query leaves alone while it filters. */
  ghost predicate Still(w0: World, w: World, v: View, now: int) {
    w.rows == w0.rows == v.rows && w.audit == w0.audit && w.lim.now == now
  }

  predicate Filters(query: Query, ask: Nearby.Ask, raw: seq<Prospect>, i: nat) {
    && query.user == ask.requester && query.row == ask.row && query.stamp == ask.now
    && query.raw == raw && query.i == i && query.j == 0 && query.results == [] && query.phase.Filtering?
  }

  /** Query `q` has looked at the first `i` prospects, and stands where the scan of the pipeline stands. */
  ghost predicate StandsAt(w0: World, w: World, q: nat, v: View, ask: Nearby.Ask, raw: seq<Prospect>, i: nat,
                           scan: Nearby.Scan) {
    && Still(w0, w, v, ask.now) && q in w.queries
    && Filters(w.queries[q], ask, raw, i) && SameAll(w.queries[q].held, scan.survivors)
    && LimiterOk(w.lim, scan.counters, q) && !scan.failed
  }

  /** Query `q` reads the row of its next prospect. */
  lemma ReadAlone(w0: World, w: World, q: nat, blocked: bool, mutual: bool) returns (w': World)
    requires Alone(w0, w, q) && Enabled(w, ReadTarget(q, blocked, mutual))
    ensures Alone(w0, w', q) && w' == Do(w, ReadTarget(q, blocked, mutual))
  {
    w' := Do(w, ReadTarget(q, blocked, mutual));
    AloneOn(w0, w, q, ReadTarget(q, blocked, mutual));
  }

  lemma ChargeIs(ask: Nearby.Ask, st: Nearby.Scan, s: Nearby.Survivor)
    requires !st.failed
    ensures var key := PairKey(ask.requester, s.userId);
            Nearby.Charge(ask, Nearby.NoFaults, st, s)
            == Nearby.Scan(Charged(st.counters, ask.now, key),
                           if Allowed(st.counters, ask.now, key) then st.survivors + [s] else st.survivors, false)
  {
    PairPolicyIs(ask.requester, s.userId);
  }

  /** Asking for the pair's budget moves machine and pipeline alike. */
  lemma PairStands(w0: World, w: World, q: nat, v: View, ask: Nearby.Ask, raw: seq<Prospect>, i: nat,
                   scan: Nearby.Scan, k: Kept, s: Nearby.Survivor)
    requires Alone(w0, w, q) && q in w.queries && w.queries[q].phase == Pairing(k)
    requires StandsAt(w0, w.(queries := w.queries[q := w.queries[q].(phase := Filtering)]), q, v, ask, raw, i, scan)
    requires k.userId == s.userId && k.dist == s.dist && k.row == s.target
    ensures Alone(w0, AfterPair(w, q, k), q)
    ensures StandsAt(w0, AfterPair(w, q, k), q, v, ask, raw, i + 1, Nearby.Charge(ask, Nearby.NoFaults, scan, s))
  {
    PairAlone(w0, w, q, k, scan.counters);
    ChargeIs(ask, scan, s);
  }

  /** One turn of the filter loop. */
  lemma TurnAlone(dist: GeoStore.Metric, w0: World, w: World, q: nat, v: View, ask: Nearby.Ask,
                  raw: seq<GeoStore.Candidate>, i: nat, scan: Nearby.Scan) returns (w': World)
    requires i < |raw| && raw[i].userId != ask.requester
    requires Alone(w0, w, q) && StandsAt(w0, w, q, v, ask, ProspectsOf(dist, ask, raw), i, scan)
    ensures Alone(w0, w', q)
    ensures StandsAt(w0, w', q, v, ask, ProspectsOf(dist, ask, raw), i + 1,
                     Nearby.Consider(dist, v, ask, Nearby.NoFaults, scan, raw[i]))
  {
    var c, t := raw[i], SettingsOf(v.rows, raw[i].userId);
    var blocked := BlockedEitherWay(v.blocks, ask.requester, c.userId);
    var mutual := MutualFollow(v.follows, ask.requester, c.userId);
    var d := dist(ask.pos, c.position);
    ConsiderAsksIfPasses(dist, v, ask, Nearby.NoFaults, scan, c);
    w' := ReadAlone(w0, w, q, blocked, mutual);
    if Nearby.Passes(ask.row, t, blocked, mutual, d, ask.now) {
      var k := Kept(c.userId, d, t, |w.history|, w.lim.now);
      assert w'.queries[q] == w.queries[q].(phase := Pairing(k));
      PairStands(w0, w', q, v, ask, ProspectsOf(dist, ask, raw), i, scan, k, Nearby.Survivor(c.userId, d, mutual, t));
      w' := AfterPair(w', q, k);
    }
  }

  /** The whole filter loop. */
  lemma {:induction false} LoopAlone(dist: GeoStore.Metric, w0: World, w: World, q: nat, v: View, ask: Nearby.Ask,
                                     raw: seq<GeoStore.Candidate>, i: nat, m: Counters) returns (w': World)
    requires i <= |raw| && forall c :: c in raw ==> c.userId != ask.requester
    requires Alone(w0, w, q)
    requires StandsAt(w0, w, q, v, ask, ProspectsOf(dist, ask, raw), 0, Nearby.Scan(m, [], false))
    ensures Alone(w0, w', q)
    ensures StandsAt(w0, w', q, v, ask, ProspectsOf(dist, ask, raw), i,
                     Nearby.ScanAll(dist, v, ask, Nearby.NoFaults, m, raw[..i]))
    decreases i
  {
    if i == 0 {
      w' := w;
    } else {
      var before := LoopAlone(dist, w0, w, q, v, ask, raw, i - 1, m);
      assert raw[..i][..i - 1] == raw[..i - 1] && raw[i - 1] in raw;
      w' := TurnAlone(dist, w0, before, q, v, ask, raw, i - 1,
                      Nearby.ScanAll(dist, v, ask, Nearby.NoFaults, m, raw[..i - 1]));
    }
  }

  // ----- the reporting loop -----

  /** What the machine keeps of an answer: whom it names and in which bucket. */
  function Pairs(results: seq<NearbyResult>): seq<(string, DistanceBucket)> {
    seq(|results|, i requires 0 <= i < |results| => (results[i].userId, results[i].bucket))
  }

  function LoggedEntries(audit: seq<Disclosure>): seq<AuditLogEntry> {
    seq(|audit|, i requires 0 <= i < |audit| => audit[i].entry)
  }

  /** The log of `w` is the one of `w0` and after it these entries. */
  ghost predicate Appended(w0: World, w: World, entries: seq<AuditLogEntry>) {
    w0.audit <= w.audit && LoggedEntries(w.audit[|w0.audit|..]) == entries
  }

  lemma AppendOne(w0: World, w: World, w': World, entries: seq<AuditLogEntry>, d: Disclosure)
    requires Appended(w0, w, entries) && w'.audit == w.audit + [d]
    ensures Appended(w0, w', entries + [d.entry])
  {
    var n := |w0.audit|;
    assert w'.audit[n..] == w.audit[n..] + [d];
    assert LoggedEntries(w.audit[n..] + [d]) == LoggedEntries(w.audit[n..]) + [d.entry];
  }

  predicate Reports(query: Query, ask: Nearby.Ask, details: set<string>, j: nat, results: seq<NearbyResult>) {
    && query.user == ask.requester && query.stamp == ask.now && query.details == details && query.j == j
    && query.results == Pairs(results) && query.phase.Reporting?
  }

  /** Query `q` has reported the first `j` survivors, and stands where the pipeline stands. */
  ghost predicate ToldUpTo(w0: World, w: World, q: nat, ask: Nearby.Ask, survivors: seq<Nearby.Survivor>,
                           details: set<string>, j: nat, report: Nearby.Report) {
    && q in w.queries && Reports(w.queries[q], ask, details, j, report.results)
    && SameAll(w.queries[q].held, survivors) && Appended(w0, w, report.audit) && !report.failed
  }

  /** One turn of the reporting loop. */
  lemma TellAlone(w0: World, w: World, q: nat, ask: Nearby.Ask, survivors: seq<Nearby.Survivor>,
                  details: map<string, Detail>, users: map<string, Profile>, j: nat, report: Nearby.Report)
    requires j < |survivors| && ToldUpTo(w0, w, q, ask, survivors, details.Keys, j, report)
    requires Alone(w0, w, q)
    ensures Alone(w0, Do(w, Report(q)), q) && Do(w, Report(q)).lim == w.lim
    ensures ToldUpTo(w0, Do(w, Report(q)), q, ask, survivors, details.Keys, j + 1,
                     Nearby.ReportOne(ask, Nearby.NoFaults, details, users, report, survivors[j]))
  {
    AloneOn(w0, w, q, Report(q));
    var query, s, w' := w.queries[q], survivors[j], Do(w, Report(q));
    assert Same(query.held[j], s);
    if s.userId in details && !BucketFor(s.dist).BucketNone? {
      var r := Nearby.ResultFor(s, details[s.userId], users);
      assert Pairs(report.results + [r]) == Pairs(report.results) + [(s.userId, BucketFor(s.dist))];
      AppendOne(w0, w, w', report.audit, w'.audit[|w.audit|]);
    }
  }

  /** The whole reporting loop. */
  lemma {:induction false} TellAll(w0: World, w: World, q: nat, ask: Nearby.Ask, survivors: seq<Nearby.Survivor>,
                                   details: map<string, Detail>, users: map<string, Profile>, j: nat)
    returns (w': World)
    requires j <= |survivors| && Alone(w0, w, q)
    requires ToldUpTo(w0, w, q, ask, survivors, details.Keys, 0, Nearby.Report([], [], false))
    ensures Alone(w0, w', q) && w'.lim == w.lim
    ensures ToldUpTo(w0, w', q, ask, survivors, details.Keys, j,
                     Nearby.ReportAll(ask, Nearby.NoFaults, details, users, survivors[..j]))
    decreases j
  {
    if j == 0 {
      w' := w;
    } else {
      var before := TellAll(w0, w, q, ask, survivors, details, users, j - 1);
      assert survivors[..j][..j - 1] == survivors[..j - 1];
      var report := Nearby.ReportAll(ask, Nearby.NoFaults, details, users, survivors[..j - 1]);
      TellAlone(w0, before, q, ask, survivors, details, users, j - 1, report);
      w' := Do(before, Report(q));
    }
  }

  // ----- the whole query -----

  /** Query `q` is over: its answer, the budgets and the log are those of `o`. */
  ghost predicate Ended(w0: World, w: World, q: nat, o: Nearby.Outcome) {
    && q in w.queries && w.queries[q].phase.Done? && o.result.Ok?
    && w.queries[q].results == Pairs(o.result.value)
    && Appended(w0, w, o.appended) && Match(w.lim, o.counters)
  }

  lemma NothingAppended(w0: World, w: World)
    requires w.audit == w0.audit
    ensures Appended(w0, w, [])
  {
  }

  /** From the end of the filter loop on. */
  lemma ReportAlone(w0: World, w: World, q: nat, v: View, ask: Nearby.Ask, raw: seq<Prospect>, scan: Nearby.Scan,
                    d: DetailKeys) returns (w': World)
    requires Alone(w0, w, q) && StandsAt(w0, w, q, v, ask, raw, |raw|, scan)
    ensures Alone(w0, w', q)
    ensures var details := GeoStore.Hydrated(Nearby.IdsOf(scan.survivors), d, ask.now);
            var report := Nearby.ReportAll(ask, Nearby.NoFaults, details, v.users, scan.survivors);
            !report.failed && Ended(w0, w', q, Nearby.Outcome(scan.counters, report.audit, Ok(report.results)))
  {
    var details := GeoStore.Hydrated(Nearby.IdsOf(scan.survivors), d, ask.now);
    AloneOn(w0, w, q, Step.Detail(q, details.Keys));
    var w1 := Do(w, Step.Detail(q, details.Keys));
    NothingAppended(w0, w1);
    var survivors := scan.survivors;
    if survivors == [] {
      w' := w1;
    } else {
      var w2 := TellAll(w0, w1, q, ask, survivors, details, v.users, |survivors|);
      assert survivors[..|survivors|] == survivors;
      w' := Do(w2, Report(q));
      AloneOn(w0, w2, q, Report(q));
    }
  }

  /** The first steps: the row, the clock, the search. */
  lemma BeginAlone(w: World, q: nat, u: string, raw: seq<Prospect>)
    returns (w': World)
    requires q !in w.queries && CheckConsent(SettingsOf(w.rows, u), w.lim.now).Ok?
    ensures Alone(w, w', q)
    ensures w' == Put(w, q, Query(u, SettingsOf(w.rows, u), |w.history|, w.lim.now, raw, 0, [], {}, 0, [],
                                  if raw == [] then Done else Daily))
  {
    Runs.LeadsToItself(MovesOf(q), w);
    AloneOn(w, w, q, Begin(q, u));
    var w1 := Do(w, Begin(q, u));
    AloneOn(w, w1, q, Stamp(q));
    var w2 := Do(w1, Stamp(q));
    AloneOn(w, w2, q, Search(q, raw));
    w' := Do(w2, Search(q, raw));
    assert w'.queries == w.queries[q := w'.queries[q]];
  }

  /** What the pipeline does once the search answered: nothing, one budget, or the scan and the report. */
  lemma AfterSearchIs(dist: GeoStore.Metric, v: View, ask: Nearby.Ask, m: Counters, d: DetailKeys,
                      raw: seq<GeoStore.Candidate>)
    requires raw != []
    ensures var key := DailyKey(ask.requester);
            var m1 := Charged(m, ask.now, key);
            var o := Nearby.AfterSearch(dist, v, ask, Nearby.NoFaults, m, d, raw);
            if !Allowed(m, ask.now, key) then o == Nearby.Outcome(m1, [], Ok([]))
            else
              var scan := Nearby.ScanAll(dist, v, ask, Nearby.NoFaults, m1, raw);
              var details := GeoStore.Hydrated(Nearby.IdsOf(scan.survivors), d, ask.now);
              var report := Nearby.ReportAll(ask, Nearby.NoFaults, details, v.users, scan.survivors);
              (!scan.failed && !report.failed)
              ==> o == Nearby.Outcome(scan.counters, report.audit, Ok(report.results))
  {
    DailyPolicyIs(ask.requester);
  }

  /** The query has its daily budget: everything that is left. */
  lemma GrantedAlone(dist: GeoStore.Metric, w0: World, w: World, q: nat, v: View, ask: Nearby.Ask,
                     raw: seq<GeoStore.Candidate>, m: Counters, d: DetailKeys) returns (w': World)
    requires forall c :: c in raw ==> c.userId != ask.requester
    requires Alone(w0, w, q)
    requires StandsAt(w0, w, q, v, ask, ProspectsOf(dist, ask, raw), 0, Nearby.Scan(m, [], false))
    ensures Alone(w0, w', q)
    ensures var scan := Nearby.ScanAll(dist, v, ask, Nearby.NoFaults, m, raw);
            var details := GeoStore.Hydrated(Nearby.IdsOf(scan.survivors), d, ask.now);
            var report := Nearby.ReportAll(ask, Nearby.NoFaults, details, v.users, scan.survivors);
            !scan.failed && !report.failed
            && Ended(w0, w', q, Nearby.Outcome(scan.counters, report.audit, Ok(report.results)))
  {
    var w1 := LoopAlone(dist, w0, w, q, v, ask, raw, |raw|, m);
    assert raw[..|raw|] == raw;
    w' := ReportAlone(w0, w1, q, v, ask, ProspectsOf(dist, ask, raw),
                      Nearby.ScanAll(dist, v, ask, Nearby.NoFaults, m, raw), d);
  }

  /** Everything after the search. */
  lemma AnswerAlone(dist: GeoStore.Metric, w0: World, w: World, q: nat, v: View, ask: Nearby.Ask,
                    raw: seq<GeoStore.Candidate>, m: Counters, d: DetailKeys) returns (w': World)
    requires raw != [] && forall c :: c in raw ==> c.userId != ask.requester
    requires Alone(w0, w, q) && Still(w0, w, v, ask.now) && LimiterOk(w.lim, m, q) && q in w.queries
    requires w.queries[q].phase.Daily? && w.queries[q].held == []
    requires Filters(w.queries[q].(phase := Filtering), ask, ProspectsOf(dist, ask, raw), 0)
    ensures Alone(w0, w', q)
    ensures Ended(w0, w', q, Nearby.AfterSearch(dist, v, ask, Nearby.NoFaults, m, d, raw))
  {
    DailyAlone(w0, w, q, m);
    AfterSearchIs(dist, v, ask, m, d, raw);
    w' := AfterDaily(w, q);
    if Allowed(m, ask.now, DailyKey(ask.requester)) {
      w' := GrantedAlone(dist, w0, w', q, v, ask, raw, Charged(m, ask.now, DailyKey(ask.requester)), d);
    } else {
      NothingAppended(w0, w');
    }
  }

  /** A query that nobody disturbs, in which nothing fails and every lookup answers what is stored, gives the answer
      of the pipeline, and leaves the budgets and the audit log as the pipeline does. */
  lemma SoloQueryIsQuery(dist: GeoStore.Metric, w: World, q: nat, u: string, v: View, pos: GeoPosition, m: Counters,
                         g: GeoSet, d: DetailKeys, names: seq<string>) returns (w': World)
    requires q !in w.queries && LimiterOk(w.lim, m, q) && v.rows == w.rows
    requires CheckConsent(SettingsOf(v.rows, u), w.lim.now).Ok?
    ensures var ask := Nearby.Ask(u, SettingsOf(v.rows, u), pos, w.lim.now);
            Alone(w, w', q)
            && Ended(w, w', q, Nearby.Query(dist, v, ask, Nearby.NoFaults, m, g, d, names))
  {
    var ask := Nearby.Ask(u, SettingsOf(v.rows, u), pos, w.lim.now);
    var raw := GeoStore.Candidates(names, g, u);
    GeoStore.CandidatesAre(names, g, u);
    var w1 := BeginAlone(w, q, u, ProspectsOf(dist, ask, raw));
    if raw == [] {
      w' := w1;
      NothingAppended(w, w');
    } else {
      w' := AnswerAlone(dist, w, w1, q, v, ask, raw, m, d);
    }
  }

  // ----- where the theorem applies -----

  /** Whoever has a key to arm is a query that has begun. */
  ghost predicate WaitersBegan(w: World) {
    forall key, c :: c in L.Get(w.lim, key).waiting ==> c in w.queries
  }

  lemma StepKeepsWaitersBegan(w: World, s: Step)
    requires WaitersBegan(w) && Enabled(w, s)
    ensures WaitersBegan(Do(w, s))
  {
    var l, w' := LimiterStep(w, s), Do(w, s);
    StepMovesLimiter(w, s);
    assert w.queries.Keys <= w'.queries.Keys;
    forall key, c | c in L.Get(w'.lim, key).waiting
      ensures c in w'.queries
    {
      assert c in L.Get(w.lim, key).waiting || (l.Some? && l.value.IncrCall? && c == l.value.caller);
    }
  }

  /** In a reachable world every query that is about to begin meets the limiter as the theorem asks. */
  lemma {:induction false} ReachableLimiterIsOk(trace: seq<World>, i: nat, q: nat, m: Counters)
    requires IsRun(trace) && i < |trace| && q !in trace[i].queries && Match(trace[i].lim, m)
    ensures LimiterOk(trace[i].lim, m, q)
  {
    ReachableInv(trace, i);
    ReachableWaitersBegan(trace, i);
  }

  lemma {:induction false} ReachableWaitersBegan(trace: seq<World>, i: nat)
    requires IsRun(trace) && i < |trace|
    ensures WaitersBegan(trace[i])
  {
    if i > 0 {
      ReachableWaitersBegan(trace, i - 1);
      assert FollowsAt(trace, i);
      var s :| Enabled(trace[i - 1], s) && trace[i] == Do(trace[i - 1], s);
      StepKeepsWaitersBegan(trace[i - 1], s);
    }
  }

  /** So whatever happened before, in any run, a query that is left alone from then on is the query of the pipeline. */
  lemma SoloQueryInAnyRun(trace: seq<World>, i: nat, dist: GeoStore.Metric, q: nat, u: string, v: View,
                          pos: GeoPosition, m: Counters, g: GeoSet, d: DetailKeys, names: seq<string>)
    returns (w': World)
    requires IsRun(trace) && i < |trace| && q !in trace[i].queries && v.rows == trace[i].rows && Match(trace[i].lim, m)
    requires CheckConsent(SettingsOf(v.rows, u), trace[i].lim.now).Ok?
    ensures var ask := Nearby.Ask(u, SettingsOf(v.rows, u), pos, trace[i].lim.now);
            Alone(trace[i], w', q)
            && Ended(trace[i], w', q, Nearby.Query(dist, v, ask, Nearby.NoFaults, m, g, d, names))
  {
    ReachableLimiterIsOk(trace, i, q, m);
    w' := SoloQueryIsQuery(dist, trace[i], q, u, v, pos, m, g, d, names);
  }
}
