/** Runs of the presence service, from the very beginning, that show how far apart the promises and the program are:
    disclosures of one pair that are not spaced, and a consent that is too old when it is relied on; and with them the
    exact conditions under which the promises hold. */
module PresenceWitness {
  import opened Wrappers
  import opened RedisCounters
  import opened Presence
  import opened Database
  import opened Settings
  import opened PresenceRun
  import opened PresenceTheorems
  import Nearby
  import L = LimiterRun
  import Runs

  /** Comes up in some run. */
  ghost predicate Reachable(w: World) {
    exists first: World :: Initial(first) && Runs.Leads(Next, first, w)
  }

  lemma ReachStep(w: World, s: Step)
    requires Reachable(w) && Enabled(w, s)
    ensures Reachable(Do(w, s))
  {
    var first: World :| Initial(first) && Runs.Leads(Next, first, w);
    Runs.LeadsOn(Next, first, w, Do(w, s));
  }

  lemma RunTo(w: World) returns (trace: seq<World>)
    requires Reachable(w)
    ensures IsRun(trace) && trace[|trace| - 1] == w
  {
    var first: World :| Initial(first) && Runs.Leads(Next, first, w);
    trace :| Runs.IsPath(Next, trace, first, w);
    forall i | 0 < i < |trace|
      ensures FollowsAt(trace, i)
    {
      assert Runs.FollowsAt(Next, trace, i);
    }
  }

  const Start := World(L.State(0, map[]), map[], map[], [], map[], [])

  lemma StartIsReachable()
    ensures Reachable(Start)
  {
    Runs.LeadsToItself(Next, Start);
  }

  // ----- a user appears -----

  const Appear := UpdateInput(Some(VISIBILITY_EVERYONE), None, None, None, Some(false))

  /** The row of a user who enrolled, confirmed, granted and became visible at `at`. */
  function Shown(user: string, at: int): PrivacySettings {
    PrivacySettings(user, VISIBILITY_EVERYONE, false, true, Some(at), Some(at + CONSENT_VALIDITY), DEFAULT_RADIUS_M,
                    REVEAL_ANONYMOUS, false, at)
  }

  /** Nothing moved but tables and history. */
  predicate OnlyTables(w: World, w': World) {
    w'.lim == w.lim && w'.queries == w.queries && w'.audit == w.audit
  }

  /** Nothing in the history went on from step `k`, if nothing could since. */
  lemma NothingWentOnFrom(w: World, k: nat)
    requires Reachable(w) && k < |w.history|
    requires forall l :: k < l < |w.history| ==> !w.history[l].act.Mark? && !w.history[l].act.Grant?
    ensures forall l :: 0 <= l < |w.history| ==> w.history[l].act != Mark(k) && w.history[l].act != Grant(k)
  {
    var trace := RunTo(w);
    ReachableInv(trace, |trace| - 1);
    forall l | 0 <= l < |w.history|
      ensures w.history[l].act != Mark(k) && w.history[l].act != Grant(k)
    {
      assert EventOk(w.history, l);
    }
  }

  /** One act of `u`. */
  lemma Acts(w: World, u: string, c: Act) returns (w': World)
    requires Reachable(w) && ActAllowed(w, u, c)
    ensures Reachable(w') && w' == Do(w, Apply(u, c)) && OnlyTables(w, w')
    ensures w'.history == w.history + [Event(u, c, w.lim.now)]
  {
    w' := Do(w, Apply(u, c));
    ReachStep(w, Apply(u, c));
  }

  lemma Enrolls(w: World, u: string, secret: string) returns (w': World)
    requires Reachable(w)
    ensures Reachable(w') && OnlyTables(w, w') && w'.rows == w.rows
    ensures w'.history == w.history + [Event(u, Enroll(secret), w.lim.now)]
    ensures SecretOf(w', u) == Some(Secret(secret, None))
  {
    w' := Acts(w, u, Enroll(secret));
  }

  lemma Accepts(w: World, u: string, secret: string) returns (w': World)
    requires Reachable(w) && SecretOf(w, u) == Some(Secret(secret, None))
    ensures Reachable(w') && OnlyTables(w, w') && w'.rows == w.rows && SecretOf(w', u) == SecretOf(w, u)
    ensures w'.history == w.history + [Event(u, Accept(secret), w.lim.now)]
  {
    w' := Acts(w, u, Accept(secret));
  }

  lemma Marks(w: World, u: string, a: nat) returns (w': World)
    requires Reachable(w) && SecretOf(w, u).Some? && a < |w.history| && w.history[a].user == u && w.history[a].act.Accept?
    requires forall l :: a < l < |w.history| ==> !w.history[l].act.Mark? && !w.history[l].act.Grant?
    ensures Reachable(w') && OnlyTables(w, w') && w'.rows == w.rows && Verified(SecretOf(w', u))
    ensures w'.history == w.history + [Event(u, Mark(a), w.lim.now)]
    ensures SecretOf(w', u).value.value == SecretOf(w, u).value.value
  {
    NothingWentOnFrom(w, a);
    w' := Acts(w, u, Mark(a));
  }

  lemma Checks(w: World, u: string) returns (w': World)
    requires Reachable(w) && Verified(SecretOf(w, u))
    ensures Reachable(w') && OnlyTables(w, w') && w'.rows == w.rows
    ensures w'.history == w.history + [Event(u, Check, w.lim.now)]
  {
    w' := Acts(w, u, Check);
  }

  lemma Grants(w: World, u: string, a: nat) returns (w': World)
    requires Reachable(w) && u !in w.rows && a < |w.history| && w.history[a].user == u && w.history[a].act.Check?
    requires forall l :: a < l < |w.history| ==> !w.history[l].act.Mark? && !w.history[l].act.Grant?
    ensures Reachable(w') && OnlyTables(w, w') && w'.secrets == w.secrets
    ensures w'.rows == w.rows[u := Granted(DefaultPrivacySettings(u), w.lim.now)]
    ensures w'.history == w.history + [Event(u, Grant(a), w.lim.now)]
  {
    NothingWentOnFrom(w, a);
    w' := Acts(w, u, Grant(a));
  }

  /** A user whose factor is activated checks it, grants and becomes visible. */
  lemma ShowsUp(w: World, u: string) returns (w': World)
    requires Reachable(w) && u !in w.rows && Verified(SecretOf(w, u))
    ensures Reachable(w') && OnlyTables(w, w') && w'.rows == w.rows[u := Shown(u, w.lim.now)]
    ensures w'.history == w.history + [Event(u, Check, w.lim.now), Event(u, Grant(|w.history|), w.lim.now),
                                       Event(u, Write(Appear), w.lim.now)]
  {
    var w1 := Checks(w, u);
    var w2 := Grants(w1, u, |w.history|);
    w' := Acts(w2, u, Write(Appear));
  }

  lemma Appears(w: World, u: string) returns (w': World)
    requires Reachable(w) && u !in w.rows
    ensures Reachable(w') && OnlyTables(w, w') && w'.rows == w.rows[u := Shown(u, w.lim.now)]
  {
    var w1 := Enrolls(w, u, "secret");
    var w2 := Accepts(w1, u, "secret");
    var w3 := Marks(w2, u, |w1.history|);
    w' := ShowsUp(w3, u);
  }

  /** What the history says of a user who enrolled anew while verifying. */
  function Mixed(u: string, n: nat, at: int): seq<Event> {
    [Event(u, Enroll("old"), at), Event(u, Accept("old"), at), Event(u, Enroll("new"), at), Event(u, Mark(n + 1), at),
     Event(u, Check, at), Event(u, Grant(n + 4), at), Event(u, Write(Appear), at)]
  }

  /** The same, but enrolling anew while verifying: the code was for the first secret, the second is activated. */
  lemma AppearsUnconfirmed(w: World, u: string) returns (w': World)
    requires Reachable(w) && u !in w.rows
    ensures Reachable(w') && OnlyTables(w, w') && w'.rows == w.rows[u := Shown(u, w.lim.now)]
    ensures w'.history == w.history + Mixed(u, |w.history|, w.lim.now)
  {
    var w1 := Enrolls(w, u, "old");
    var w2 := Accepts(w1, u, "old");
    var w3 := Enrolls(w2, u, "new");
    var w4 := Marks(w3, u, |w1.history|);
    w' := ShowsUp(w4, u);
  }

  // ----- one query's way to the pair budget -----

  /** Only query `q` and limiter keys moved, and no time passed. */
  predicate OnlyQuery(w: World, w': World, q: nat) {
    && w'.rows == w.rows && w'.secrets == w.secrets && w'.history == w.history && w'.audit == w.audit
    && w'.lim.now == w.lim.now
    && w'.queries.Keys == w.queries.Keys + {q}
    && forall o :: o in w.queries && o != q ==> w'.queries[o] == w.queries[o]
  }

  ghost predicate OnlyKey(w: World, w': World, key: string) {
    forall other :: other != key ==> L.Get(w'.lim, other) == L.Get(w.lim, other)
  }

  /** A query of `u` that has read its row and the clock. */
  function Stamped(w: World, u: string): Query {
    Query(u, SettingsOf(w.rows, u), |w.history|, w.lim.now, [], 0, [], {}, 0, [], Searching)
  }

  lemma Begins(w: World, q: nat, u: string) returns (w': World)
    requires Reachable(w) && q !in w.queries && CheckConsent(SettingsOf(w.rows, u), w.lim.now).Ok?
    ensures Reachable(w') && w' == w.(queries := w.queries[q := Stamped(w, u)])
  {
    var w1 := Do(w, Begin(q, u));
    ReachStep(w, Begin(q, u));
    w' := Do(w1, Stamp(q));
    ReachStep(w1, Stamp(q));
    assert w'.queries == w.queries[q := Stamped(w, u)];
  }

  lemma Finds(w: World, q: nat, p: Prospect) returns (w': World)
    requires Reachable(w) && q in w.queries && w.queries[q].phase.Searching?
    ensures Reachable(w') && w' == w.(queries := w.queries[q := w.queries[q].(raw := [p], phase := Daily)])
  {
    w' := Do(w, Search(q, [p]));
    ReachStep(w, Search(q, [p]));
  }

  /** The daily key after n queries, the first of them at `at`. */
  predicate DailyUsed(w: World, u: string, n: nat, at: int) {
    L.Get(w.lim, DailyKey(u)).counter == Some(Counter(n, Some(at + DAILY_WINDOW)))
  }

  lemma DailyIncrWaits(w: World, q: nat) returns (w': World)
    requires Reachable(w) && q in w.queries && w.queries[q].phase.Daily?
    requires DailyKey(w.queries[q].user) !in w.lim.keys
    ensures Reachable(w') && OnlyQuery(w, w', q) && OnlyKey(w, w', DailyKey(w.queries[q].user))
    ensures w'.queries[q] == w.queries[q].(phase := DailyArming)
    ensures L.Get(w'.lim, DailyKey(w.queries[q].user)) == L.Key(Some(Counter(1, None)), [L.Gen(w.lim.now, None)], [], {q})
  {
    DailyPolicyIs(w.queries[q].user);
    w' := Do(w, DailyIncr(q));
    ReachStep(w, DailyIncr(q));
  }

  lemma DailyExpires(w: World, q: nat) returns (w': World)
    requires Reachable(w) && q in w.queries && w.queries[q].phase.DailyArming?
    requires L.Get(w.lim, DailyKey(w.queries[q].user)) == L.Key(Some(Counter(1, None)), [L.Gen(w.lim.now, None)], [], {q})
    ensures Reachable(w') && OnlyQuery(w, w', q) && OnlyKey(w, w', DailyKey(w.queries[q].user))
    ensures w'.queries[q] == w.queries[q].(phase := Filtering) && DailyUsed(w', w.queries[q].user, 1, w.lim.now)
    ensures L.Get(w'.lim, DailyKey(w.queries[q].user)).waiting == {}
  {
    DailyPolicyIs(w.queries[q].user);
    w' := Do(w, DailyExpire(q));
    ReachStep(w, DailyExpire(q));
  }

  lemma FirstDaily(w: World, q: nat) returns (w': World)
    requires Reachable(w) && q in w.queries && w.queries[q].phase.Daily?
    requires DailyKey(w.queries[q].user) !in w.lim.keys
    ensures Reachable(w') && OnlyQuery(w, w', q) && OnlyKey(w, w', DailyKey(w.queries[q].user))
    ensures w'.queries[q] == w.queries[q].(phase := Filtering) && DailyUsed(w', w.queries[q].user, 1, w.lim.now)
    ensures L.Get(w'.lim, DailyKey(w.queries[q].user)).waiting == {}
  {
    var w1 := DailyIncrWaits(w, q);
    w' := DailyExpires(w1, q);
  }

  lemma NextDaily(w: World, q: nat, n: nat, at: int) returns (w': World)
    requires Reachable(w) && q in w.queries && w.queries[q].phase.Daily?
    requires DailyUsed(w, w.queries[q].user, n, at) && 1 <= n < DAILY_LIMIT && w.lim.now < at + DAILY_WINDOW
    requires q !in L.Get(w.lim, DailyKey(w.queries[q].user)).waiting
    ensures Reachable(w') && OnlyQuery(w, w', q) && OnlyKey(w, w', DailyKey(w.queries[q].user))
    ensures w'.queries[q] == w.queries[q].(phase := Filtering)
  {
    DailyPolicyIs(w.queries[q].user);
    assert Alive(L.Get(w.lim, DailyKey(w.queries[q].user)).counter, w.lim.now);
    w' := Do(w, DailyIncr(q));
    ReachStep(w, DailyIncr(q));
  }

  /** The target as it is kept when its row is read now. */
  function KeptNow(w: World, p: Prospect): Kept {
    Kept(p.userId, p.dist, SettingsOf(w.rows, p.userId), |w.history|, w.lim.now)
  }

  lemma ReadsTarget(w: World, q: nat) returns (w': World)
    requires Reachable(w) && q in w.queries && w.queries[q].phase.Filtering? && w.queries[q].i == 0
    requires |w.queries[q].raw| == 1
    requires var query, p := w.queries[q], w.queries[q].raw[0];
             p.userId != query.user
             && Nearby.Passes(query.row, SettingsOf(w.rows, p.userId), false, false, p.dist, query.stamp)
    ensures Reachable(w')
    ensures w' == w.(queries := w.queries[q := w.queries[q].(phase := Pairing(KeptNow(w, w.queries[q].raw[0])))])
  {
    w' := Do(w, ReadTarget(q, false, false));
    ReachStep(w, ReadTarget(q, false, false));
  }

  // ----- turns at a pair key -----

  /** A pair key after one admission at `now`. */
  function UsedOnce(p: nat, now: int): L.Key {
    L.Key(Some(Counter(1, Some(now + PAIR_WINDOW))), [L.Gen(now, Some(now))], [L.Admission(0, true, p, now, now)], {})
  }

  lemma FirstTurn(p: nat, now: int)
    ensures L.IncrBy(L.Fresh, p, 1, now).waiting == {p}
    ensures L.ExpireBy(L.IncrBy(L.Fresh, p, 1, now), p, 1, PAIR_WINDOW, now) == UsedOnce(p, now)
  {
    assert L.IncrBy(L.Fresh, p, 1, now) == L.Key(Some(Counter(1, None)), [L.Gen(now, None)], [], {p});
  }

  /** What the pair's key is after query `q` had its turn at it. */
  function AfterTurn(w: World, q: nat, key: string): L.Key {
    L.ExpireBy(L.IncrBy(L.Get(w.lim, key), q, 1, w.lim.now), q, 1, PAIR_WINDOW, w.lim.now)
  }

  lemma PairIncrWaits(w: World, q: nat, k: Kept) returns (w': World)
    requires Reachable(w) && q in w.queries && w.queries[q].phase == Pairing(k)
    requires L.IncrBy(L.Get(w.lim, PairKeyOf(w.queries[q], k)), q, 1, w.lim.now).waiting == {q}
    ensures Reachable(w') && OnlyQuery(w, w', q) && OnlyKey(w, w', PairKeyOf(w.queries[q], k))
    ensures L.Get(w'.lim, PairKeyOf(w.queries[q], k)) == L.IncrBy(L.Get(w.lim, PairKeyOf(w.queries[q], k)), q, 1, w.lim.now)
    ensures w'.queries[q] == w.queries[q].(phase := PairArming(k))
  {
    PairPolicyIs(w.queries[q].user, k.userId);
    w' := Do(w, PairIncr(q));
    ReachStep(w, PairIncr(q));
  }

  lemma PairExpireHolds(w: World, q: nat, k: Kept) returns (w': World)
    requires Reachable(w) && q in w.queries && w.queries[q].phase == PairArming(k)
    requires q in L.Get(w.lim, PairKeyOf(w.queries[q], k)).waiting
    ensures Reachable(w') && OnlyQuery(w, w', q) && OnlyKey(w, w', PairKeyOf(w.queries[q], k))
    ensures var used := L.ExpireBy(L.Get(w.lim, PairKeyOf(w.queries[q], k)), q, 1, PAIR_WINDOW, w.lim.now);
            && L.Get(w'.lim, PairKeyOf(w.queries[q], k)) == used
            && w'.queries[q] == w.queries[q].(held := w.queries[q].held + [Held(k, if used.log == [] then 0 else |used.log| - 1)],
                                              i := w.queries[q].i + 1, phase := Filtering)
  {
    PairPolicyIs(w.queries[q].user, k.userId);
    w' := Do(w, PairExpire(q));
    ReachStep(w, PairExpire(q));
  }

  /** One query takes its turn at a pair key that nobody else is at. */
  lemma TakesTurn(w: World, q: nat, k: Kept) returns (w': World)
    requires Reachable(w) && q in w.queries && w.queries[q].phase == Pairing(k)
    requires L.IncrBy(L.Get(w.lim, PairKeyOf(w.queries[q], k)), q, 1, w.lim.now).waiting == {q}
    ensures Reachable(w') && OnlyQuery(w, w', q) && OnlyKey(w, w', PairKeyOf(w.queries[q], k))
    ensures var used := AfterTurn(w, q, PairKeyOf(w.queries[q], k));
            && L.Get(w'.lim, PairKeyOf(w.queries[q], k)) == used
            && w'.queries[q] == w.queries[q].(held := w.queries[q].held + [Held(k, if used.log == [] then 0 else |used.log| - 1)],
                                              i := w.queries[q].i + 1, phase := Filtering)
  {
    var w1 := PairIncrWaits(w, q, k);
    w' := PairExpireHolds(w1, q, k);
  }

  // ----- one query's report -----

  lemma Reports(w: World, q: nat, k: Kept, adm: nat) returns (w': World)
    requires Reachable(w) && q in w.queries && w.queries[q].phase.Filtering? && w.queries[q].i == |w.queries[q].raw|
    requires w.queries[q].held == [Held(k, adm)] && w.queries[q].j == 0 && !BucketFor(k.dist).BucketNone?
    ensures Reachable(w')
    ensures w'.lim == w.lim && w'.history == w.history && w'.rows == w.rows
    ensures w'.queries.Keys == w.queries.Keys && forall o :: o in w.queries && o != q ==> w'.queries[o] == w.queries[o]
    ensures w'.audit == w.audit + [Disclosure(q, AuditLogEntry(w.queries[q].user, k.userId, w.queries[q].stamp,
                                                               BucketFor(k.dist), ENDPOINT),
                                              adm, k, w.queries[q].row, w.queries[q].seen, w.lim.now)]
  {
    var w1 := Do(w, PresenceRun.Detail(q, {k.userId}));
    ReachStep(w, PresenceRun.Detail(q, {k.userId}));
    w' := Do(w1, PresenceRun.Report(q));
    ReachStep(w1, PresenceRun.Report(q));
  }

  // ----- the runs -----

  const Near := Prospect("t", 10.0)
  const Both := map["r" := Shown("r", 0), "t" := Shown("t", 0)]

  /** Both users have just appeared, and nothing else happened. */
  predicate BothAppeared(w: World) {
    w.rows == Both && w.lim == L.State(0, map[]) && w.queries == map[] && w.audit == []
  }

  lemma BothAppear() returns (w: World)
    ensures Reachable(w) && BothAppeared(w)
  {
    StartIsReachable();
    var w1 := Appears(Start, "r");
    w := Appears(w1, "t");
  }

  lemma TicksOn(w: World, d: nat) returns (w': World)
    requires Reachable(w)
    ensures Reachable(w') && w' == w.(lim := w.lim.(now := w.lim.now + d))
    ensures forall key :: L.Get(w'.lim, key) == L.Get(w.lim, key)
  {
    w' := Do(w, Tick(d));
    ReachStep(w, Tick(d));
  }

  lemma ShownPasses(w: World, stamp: int)
    requires w.rows == Both && 0 <= stamp < CONSENT_VALIDITY
    ensures SettingsOf(w.rows, "r") == Shown("r", 0) && SettingsOf(w.rows, "t") == Shown("t", 0)
    ensures CheckConsent(Shown("r", 0), stamp).Ok?
    ensures Nearby.Passes(Shown("r", 0), Shown("t", 0), false, false, Near.dist, stamp)
    ensures BucketFor(Near.dist) == Bucket1
  {
  }

  /** Query `q` of "r" read the clock at `stamp` and is about to search. */
  predicate SearchingAt(w: World, q: nat, stamp: int) {
    q in w.queries
    && w.queries[q] == Query("r", Shown("r", 0), w.queries[q].seen, stamp, [], 0, [], {}, 0, [], Searching)
  }

  lemma Asks(w: World, q: nat) returns (w': World)
    requires Reachable(w) && q !in w.queries && w.rows == Both && 0 <= w.lim.now < CONSENT_VALIDITY
    ensures Reachable(w') && w'.lim == w.lim && OnlyQuery(w, w', q) && SearchingAt(w', q, w.lim.now)
  {
    ShownPasses(w, w.lim.now);
    w' := Begins(w, q, "r");
  }

  /** Query `q` of "r" with its one hit "t" and its daily budget granted. */
  predicate AtFilter(w: World, q: nat, stamp: int) {
    && q in w.queries && w.queries[q].user == "r" && w.queries[q].row == Shown("r", 0) && w.queries[q].stamp == stamp
    && w.queries[q].raw == [Near] && w.queries[q].i == 0 && w.queries[q].held == [] && w.queries[q].j == 0
    && w.queries[q].details == {} && w.queries[q].results == [] && w.queries[q].phase.Filtering?
  }

  /** Query `q` holds "t" under admission `adm`. */
  predicate Holds(w: World, q: nat, stamp: int, k: Kept, adm: nat) {
    && q in w.queries && w.queries[q].phase.Filtering? && w.queries[q].i == |w.queries[q].raw| && w.queries[q].j == 0
    && w.queries[q].held == [Held(k, adm)] && w.queries[q].user == "r" && w.queries[q].stamp == stamp
    && k.userId == "t" && k.dist == Near.dist
  }

  /** The budgets after the first admission, at `at`. */
  predicate OneAdmitted(w: World, at: int) {
    && L.Get(w.lim, PairKey("r", "t")) == UsedOnce(1, at)
    && DailyUsed(w, "r", 1, at) && L.Get(w.lim, DailyKey("r")).waiting == {}
  }

  lemma FirstAtFilter(w: World, stamp: int) returns (w': World)
    requires Reachable(w) && SearchingAt(w, 1, stamp) && w.lim.keys == map[]
    ensures Reachable(w') && OnlyQuery(w, w', 1) && AtFilter(w', 1, stamp)
    ensures L.Get(w'.lim, PairKey("r", "t")) == L.Fresh
    ensures DailyUsed(w', "r", 1, w.lim.now) && L.Get(w'.lim, DailyKey("r")).waiting == {}
  {
    var w1 := Finds(w, 1, Near);
    w' := FirstDaily(w1, 1);
    PairAndDailyKeysDiffer("r", "t", "r");
    assert L.Get(w'.lim, PairKey("r", "t")) == L.Get(w1.lim, PairKey("r", "t")) == L.Fresh;
  }

  lemma ReadsNear(w: World, q: nat, stamp: int) returns (w': World, k: Kept)
    requires Reachable(w) && w.rows == Both && AtFilter(w, q, stamp) && 0 <= stamp < CONSENT_VALIDITY
    ensures Reachable(w') && k == Kept("t", Near.dist, Shown("t", 0), |w.history|, w.lim.now)
    ensures w' == w.(queries := w.queries[q := w.queries[q].(phase := Pairing(k))])
  {
    ShownPasses(w, stamp);
    k := KeptNow(w, Near);
    w' := ReadsTarget(w, q);
  }

  /** Query 1 goes all the way to its pair budget, and is granted it. */
  lemma FirstIsAdmitted(w: World, stamp: int) returns (w': World, k: Kept)
    requires Reachable(w) && w.rows == Both && SearchingAt(w, 1, stamp) && w.lim.keys == map[]
    requires 0 <= stamp < CONSENT_VALIDITY
    ensures Reachable(w') && OnlyQuery(w, w', 1) && Holds(w', 1, stamp, k, 0) && OneAdmitted(w', w.lim.now)
    ensures k == Kept("t", Near.dist, Shown("t", 0), |w.history|, w.lim.now)
  {
    var w1 := FirstAtFilter(w, stamp);
    var w2;
    w2, k := ReadsNear(w1, 1, stamp);
    FirstTurn(1, w.lim.now);
    w' := TakesTurn(w2, 1, k);
    PairAndDailyKeysDiffer("r", "t", "r");
    assert L.Get(w'.lim, DailyKey("r")) == L.Get(w2.lim, DailyKey("r"));
  }

  /** The pair's key after both admissions, a window apart. */
  function UsedTwice(at: int): L.Key {
    L.ExpireBy(L.IncrBy(UsedOnce(1, at), 2, 1, at + PAIR_WINDOW), 2, 1, PAIR_WINDOW, at + PAIR_WINDOW)
  }

  lemma UsedTwiceIs(at: int)
    ensures UsedTwice(at).log
            == [L.Admission(0, true, 1, at, at), L.Admission(1, true, 2, at + PAIR_WINDOW, at + PAIR_WINDOW)]
    ensures L.IncrBy(UsedOnce(1, at), 2, 1, at + PAIR_WINDOW).waiting == {2}
  {
    var again := at + PAIR_WINDOW;
    assert L.IncrBy(UsedOnce(1, at), 2, 1, again)
        == UsedOnce(1, at).(counter := Some(Counter(1, None)), gens := [L.Gen(at, Some(at)), L.Gen(again, None)],
                            waiting := {2});
  }

  lemma SecondAtFilter(w: World, stamp: int, at: int) returns (w': World)
    requires Reachable(w) && SearchingAt(w, 2, stamp) && OneAdmitted(w, at) && w.lim.now == at + PAIR_WINDOW
    ensures Reachable(w') && OnlyQuery(w, w', 2) && AtFilter(w', 2, stamp)
    ensures L.Get(w'.lim, PairKey("r", "t")) == UsedOnce(1, at)
  {
    var w1 := Finds(w, 2, Near);
    w' := NextDaily(w1, 2, 1, at);
    PairAndDailyKeysDiffer("r", "t", "r");
    assert L.Get(w'.lim, PairKey("r", "t")) == L.Get(w1.lim, PairKey("r", "t"));
  }

  /** Query 2 likewise, a window later. */
  lemma SecondIsAdmitted(w: World, stamp: int, at: int) returns (w': World, k: Kept)
    requires Reachable(w) && w.rows == Both && SearchingAt(w, 2, stamp) && 0 <= stamp < CONSENT_VALIDITY
    requires OneAdmitted(w, at) && w.lim.now == at + PAIR_WINDOW
    ensures Reachable(w') && OnlyQuery(w, w', 2) && Holds(w', 2, stamp, k, 1)
    ensures L.Get(w'.lim, PairKey("r", "t")) == UsedTwice(at)
  {
    var w1 := SecondAtFilter(w, stamp, at);
    var w2;
    w2, k := ReadsNear(w1, 2, stamp);
    UsedTwiceIs(at);
    w' := TakesTurn(w2, 2, k);
  }

  /** The entry of a query that held "t". */
  predicate Told(d: Disclosure, stamp: int, adm: nat, appended: int) {
    && d.entry == AuditLogEntry("r", "t", stamp, Bucket1, ENDPOINT) && d.adm == adm && d.appended == appended
  }

  lemma Tells(w: World, q: nat, stamp: int, k: Kept, adm: nat) returns (w': World)
    requires Reachable(w) && Holds(w, q, stamp, k, adm)
    ensures Reachable(w') && w'.lim == w.lim && w'.history == w.history && w'.rows == w.rows
    ensures w'.queries.Keys == w.queries.Keys && forall o :: o in w.queries && o != q ==> w'.queries[o] == w.queries[o]
    ensures |w'.audit| == |w.audit| + 1 && w'.audit[..|w.audit|] == w.audit
    ensures Told(w'.audit[|w.audit|], stamp, adm, w.lim.now) && w'.audit[|w.audit|].kept == k
  {
    assert BucketFor(Near.dist) == Bucket1;
    w' := Reports(w, q, k, adm);
  }

  // a consent too old when it is relied on

  /** A run in which a disclosure relies on a consent that was given 180 days before the target's row was read, and as
      much longer as the query was held up after reading the clock. */
  lemma OldConsentIsReliedOn(held: nat) returns (w: World)
    requires held >= 1
    ensures Reachable(w) && |w.audit| == 1 && w.audit[0].entry.targetId == "t"
    ensures w.audit[0].kept.row.consentTs == Some(0)
    ensures w.audit[0].kept.readAt == CONSENT_VALIDITY - 1 + held >= CONSENT_VALIDITY
    ensures w.audit[0].entry.occurredAt == CONSENT_VALIDITY - 1
    ensures !w.audit[0].kept.row.HasActiveConsent(w.audit[0].kept.readAt)
  {
    var w1 := BothAppear();
    var w2 := TicksOn(w1, CONSENT_VALIDITY - 1);
    var w3 := Asks(w2, 1);
    var w4 := TicksOn(w3, held);
    var w5, k := FirstIsAdmitted(w4, CONSENT_VALIDITY - 1);
    w := Tells(w5, 1, CONSENT_VALIDITY - 1, k, 0);
  }

  // a factor that nobody confirmed

  lemma UnconfirmedAppears() returns (w: World, n: nat)
    ensures Reachable(w) && BothAppeared(w) && |w.history| == n + 7 && w.history[n..] == Mixed("t", n, 0)
    ensures forall k :: 0 <= k < n ==> w.history[k].user != "t"
  {
    StartIsReachable();
    var w1 := OnlyOneAppears();
    n := |w1.history|;
    w := AppearsUnconfirmed(w1, "t");
  }

  lemma OnlyOneAppears() returns (w: World)
    ensures Reachable(w) && w.rows == map["r" := Shown("r", 0)] && w.lim == L.State(0, map[])
    ensures w.queries == map[] && w.audit == [] && forall k :: 0 <= k < |w.history| ==> w.history[k].user == "r"
  {
    StartIsReachable();
    var w1 := Enrolls(Start, "r", "secret");
    var w2 := Accepts(w1, "r", "secret");
    var w3 := Marks(w2, "r", |w1.history|);
    w := ShowsUp(w3, "r");
  }

  lemma MixedIsUnconfirmed(h: seq<Event>, u: string, n: nat)
    requires |h| == n + 7 && h[n..] == Mixed(u, n, 0) && forall k :: 0 <= k < n ==> h[k].user != u
    ensures GrantStands(h, u, n + 5) && h[n + 5].act.check == n + 4
    ensures InForce(h, u, n + 4, n + 2) && h[n + 2].act.secret == "new" && !FactorConfirmed(h, u, n + 4)
    ensures forall k :: 0 <= k < |h| && h[k].user == u ==> h[k].act != Accept("new")
  {
    assert forall k :: n <= k < n + 7 ==> h[k] == Mixed(u, n, 0)[k - n];
  }

  /** A run in which a disclosure rests on a factor that nobody confirmed: no code for the secret in force at the grant,
      nor ever since, was accepted. The user enrolled while one verification was between reading and marking. */
  lemma UnconfirmedFactorIsReliedOn() returns (w: World, g: nat, e: nat)
    ensures Reachable(w) && |w.audit| == 1 && w.audit[0].entry.targetId == "t" && w.audit[0].kept.seen == |w.history|
    ensures GrantStands(w.history, "t", g) && InForce(w.history, "t", w.history[g].act.check, e)
    ensures w.history[g].act.check < g && !FactorConfirmed(w.history, "t", w.history[g].act.check)
    ensures forall k :: 0 <= k < |w.history| && w.history[k].user == "t" ==>
              w.history[k].act != Accept(w.history[e].act.secret)
  {
    var w1, n := UnconfirmedAppears();
    MixedIsUnconfirmed(w1.history, "t", n);
    g, e := n + 5, n + 2;
    var w2 := Asks(w1, 1);
    var w3, k := FirstIsAdmitted(w2, 0);
    w := Tells(w3, 1, 0, k, 0);
  }

  /** A run in which consent is granted although the factor is no longer activated: it was replaced after the check. */
  lemma GrantOutlivesItsFactor() returns (w: World)
    ensures Reachable(w) && SettingsOf(w.rows, "t").HasActiveConsent(w.lim.now) && !Verified(SecretOf(w, "t"))
  {
    StartIsReachable();
    var w1 := Enrolls(Start, "t", "old");
    var w2 := Accepts(w1, "t", "old");
    var w3 := Marks(w2, "t", |w1.history|);
    var w4 := Checks(w3, "t");
    var w5 := Enrolls(w4, "t", "new");
    w := Grants(w5, "t", |w3.history|);
  }

  // two disclosures of one pair

  /** Entry `a` of the log is the earlier admitted of two entries of one pair. */
  ghost predicate EarlierLater(w: World, a: nat, b: nat) {
    && a < |w.audit| && b < |w.audit| && SamePair(w.audit[a], w.audit[b]) && w.audit[a].adm < w.audit[b].adm
    && HasAdmission(w, w.audit[a]) && HasAdmission(w, w.audit[b])
  }

  /** What a run with two disclosures of "t" to "r" ends in. */
  ghost predicate TwoTold(w: World, at: int, stamp1: int, appended1: int, stamp2: int, appended2: int) {
    && Reachable(w) && |w.audit| == 2 && L.Get(w.lim, PairKey("r", "t")) == UsedTwice(at)
    && Told(w.audit[0], stamp1, 0, appended1) && Told(w.audit[1], stamp2, 1, appended2)
  }

  lemma TwoToldAre(w: World, at: int, stamp1: int, appended1: int, stamp2: int, appended2: int)
    requires TwoTold(w, at, stamp1, appended1, stamp2, appended2)
    ensures EarlierLater(w, 0, 1)
    ensures HoldUp(w, w.audit[0]) == appended1 - at && HoldUp(w, w.audit[1]) == appended2 - (at + PAIR_WINDOW)
    ensures Lag(w, w.audit[0]) == at - stamp1 && Lag(w, w.audit[1]) == at + PAIR_WINDOW - stamp2
  {
    UsedTwiceIs(at);
  }

  lemma FirstAsks() returns (w: World)
    ensures Reachable(w) && w.rows == Both && w.lim == L.State(0, map[]) && w.audit == []
    ensures w.queries.Keys == {1} && SearchingAt(w, 1, 0)
  {
    var w1 := BothAppear();
    w := Asks(w1, 1);
  }

  lemma FirstHeld() returns (w: World, k: Kept)
    ensures Reachable(w) && w.rows == Both && w.lim.now == 0 && w.audit == [] && w.queries.Keys == {1}
    ensures Holds(w, 1, 0, k, 0) && OneAdmitted(w, 0)
  {
    var w1 := FirstAsks();
    w, k := FirstIsAdmitted(w1, 0);
  }

  /** Both are reported at once. */
  lemma BothTell(w: World, at: int, k1: Kept, stamp: int, k2: Kept) returns (w': World)
    requires Reachable(w) && w.audit == [] && L.Get(w.lim, PairKey("r", "t")) == UsedTwice(at)
    requires Holds(w, 1, 0, k1, 0) && Holds(w, 2, stamp, k2, 1)
    ensures TwoTold(w', at, 0, w.lim.now, stamp, w.lim.now)
  {
    var w1 := Tells(w, 1, 0, k1, 0);
    w' := Tells(w1, 2, stamp, k2, 1);
    assert w'.audit[..1][0] == w1.audit[0];
  }

  /** A window after the first admission the second query begins and is admitted too. */
  lemma BothHeld() returns (w: World, k1: Kept, k2: Kept)
    ensures Reachable(w) && w.audit == [] && w.lim.now == PAIR_WINDOW
    ensures L.Get(w.lim, PairKey("r", "t")) == UsedTwice(0)
    ensures Holds(w, 1, 0, k1, 0) && Holds(w, 2, PAIR_WINDOW, k2, 1)
  {
    var w1;
    w1, k1 := FirstHeld();
    var w2 := TicksOn(w1, PAIR_WINDOW);
    var w3 := Asks(w2, 2);
    w, k2 := SecondIsAdmitted(w3, PAIR_WINDOW, 0);
  }

  /** The first is held up for `x`, no longer than a window, the second for less. */
  lemma HeldUpBriefly(x: nat) returns (w: World)
    requires 1 <= x <= PAIR_WINDOW
    ensures TwoTold(w, 0, 0, x, PAIR_WINDOW, PAIR_WINDOW + x - 1)
  {
    var w1, k1 := FirstHeld();
    var w2 := TicksOn(w1, x);
    var w3 := Tells(w2, 1, 0, k1, 0);
    var w4 := TicksOn(w3, PAIR_WINDOW - x);
    var w5 := Asks(w4, 2);
    var w6, k2 := SecondIsAdmitted(w5, PAIR_WINDOW, 0);
    var w7 := TicksOn(w6, x - 1);
    w := Tells(w7, 2, PAIR_WINDOW, k2, 1);
    assert w.audit[..1][0] == w3.audit[0];
  }

  /** And for longer than a window. */
  lemma HeldUpLong(x: nat) returns (w: World)
    requires x > PAIR_WINDOW
    ensures TwoTold(w, 0, 0, x, PAIR_WINDOW, PAIR_WINDOW + x - 1)
  {
    var w1, k1, k2 := BothHeld();
    var w2 := TicksOn(w1, x - PAIR_WINDOW);
    var w3 := Tells(w2, 1, 0, k1, 0);
    var w4 := TicksOn(w3, PAIR_WINDOW - 1);
    w := Tells(w4, 2, PAIR_WINDOW, k2, 1);
    assert w.audit[..1][0] == w3.audit[0];
  }

  /** The first lags behind for `y`, less than a window, the second for one more. */
  lemma LagsBriefly(y: nat) returns (w: World)
    requires y < PAIR_WINDOW
    ensures TwoTold(w, y, 0, y + PAIR_WINDOW, PAIR_WINDOW - 1, y + PAIR_WINDOW)
  {
    var w1 := FirstAsks();
    var w2 := TicksOn(w1, y);
    var w3, k1 := FirstIsAdmitted(w2, 0);
    var w4 := TicksOn(w3, PAIR_WINDOW - 1 - y);
    var w5 := Asks(w4, 2);
    var w6 := TicksOn(w5, y + 1);
    var w7, k2 := SecondIsAdmitted(w6, PAIR_WINDOW - 1, y);
    w := BothTell(w7, y, k1, PAIR_WINDOW - 1, k2);
  }

  /** And for a window or longer. */
  lemma LagsLong(y: nat) returns (w: World)
    requires y >= PAIR_WINDOW
    ensures TwoTold(w, y, 0, y + PAIR_WINDOW, PAIR_WINDOW - 1, y + PAIR_WINDOW)
  {
    var w1 := BothAsk();
    var w2 := TicksOn(w1, y - (PAIR_WINDOW - 1));
    var w3, k1 := FirstIsAdmitted(w2, 0);
    var w4 := TicksOn(w3, PAIR_WINDOW);
    var w5, k2 := SecondIsAdmitted(w4, PAIR_WINDOW - 1, y);
    w := BothTell(w5, y, k1, PAIR_WINDOW - 1, k2);
  }

  lemma BothAsk() returns (w: World)
    ensures Reachable(w) && w.rows == Both && w.lim == L.State(PAIR_WINDOW - 1, map[]) && w.audit == []
    ensures SearchingAt(w, 1, 0) && SearchingAt(w, 2, PAIR_WINDOW - 1)
  {
    var w1 := FirstAsks();
    var w2 := TicksOn(w1, PAIR_WINDOW - 1);
    w := Asks(w2, 2);
  }

  /** A run with two disclosures of one pair that are not apart at all: the entries are equal, recorded time included,
      and they were appended at the same instant, one after the other. */
  lemma OnePairIsDisclosedTwiceAtOnce() returns (w: World)
    ensures Reachable(w) && |w.audit| == 2 && SamePair(w.audit[0], w.audit[1])
    ensures w.audit[0].entry == w.audit[1].entry && w.audit[0].appended == w.audit[1].appended
  {
    var w1 := FirstAsks();
    var w2 := Asks(w1, 2);
    var w3, k1 := FirstIsAdmitted(w2, 0);
    var w4 := TicksOn(w3, PAIR_WINDOW);
    var w5, k2 := SecondIsAdmitted(w4, 0, 0);
    w := BothTell(w5, 0, k1, 0, k2);
  }

  // ----- when the promises hold exactly -----

  /** In every run all disclosures of pairs, the earlier held up for at most `x` and the later for at least `y`, are
      30 s apart, if and only if `x` is no more than `y`. */
  lemma SpacedExactlyByHoldUps(x: nat, y: nat)
    ensures (forall w, a: nat, b: nat ::
               Reachable(w) && EarlierLater(w, a, b) && HoldUp(w, w.audit[a]) <= x && HoldUp(w, w.audit[b]) >= y ==>
                 w.audit[a].appended + PAIR_WINDOW <= w.audit[b].appended) <==> x <= y
  {
    if x <= y {
      forall w, a: nat, b: nat |
        Reachable(w) && EarlierLater(w, a, b) && HoldUp(w, w.audit[a]) <= x && HoldUp(w, w.audit[b]) >= y
        ensures w.audit[a].appended + PAIR_WINDOW <= w.audit[b].appended
      {
        var trace := RunTo(w);
        DisclosuresAreSpacedUpToHoldUp(trace, |trace| - 1, a, b);
      }
    } else {
      var w := HeldUpFor(x);
      TwoToldAre(w, 0, 0, x, PAIR_WINDOW, PAIR_WINDOW + x - 1);
      assert Reachable(w) && EarlierLater(w, 0, 1) && HoldUp(w, w.audit[0]) <= x && HoldUp(w, w.audit[1]) >= y;
    }
  }

  lemma HeldUpFor(x: nat) returns (w: World)
    requires x >= 1
    ensures TwoTold(w, 0, 0, x, PAIR_WINDOW, PAIR_WINDOW + x - 1)
  {
    if x <= PAIR_WINDOW {
      w := HeldUpBriefly(x);
    } else {
      w := HeldUpLong(x);
    }
  }

  lemma LagsFor(y: nat) returns (w: World)
    ensures TwoTold(w, y, 0, y + PAIR_WINDOW, PAIR_WINDOW - 1, y + PAIR_WINDOW)
  {
    if y < PAIR_WINDOW {
      w := LagsBriefly(y);
    } else {
      w := LagsLong(y);
    }
  }

  /** And all recorded times of pairs, the earlier lagging for at least `y` and the later for at most `x`, are 30 s
      apart, if and only if `x` is no more than `y`. */
  lemma RecordedExactlyByLags(x: nat, y: nat)
    ensures (forall w, a: nat, b: nat ::
               Reachable(w) && EarlierLater(w, a, b) && Lag(w, w.audit[a]) >= y && Lag(w, w.audit[b]) <= x ==>
                 w.audit[a].entry.occurredAt + PAIR_WINDOW <= w.audit[b].entry.occurredAt) <==> x <= y
  {
    if x <= y {
      forall w, a: nat, b: nat |
        Reachable(w) && EarlierLater(w, a, b) && Lag(w, w.audit[a]) >= y && Lag(w, w.audit[b]) <= x
        ensures w.audit[a].entry.occurredAt + PAIR_WINDOW <= w.audit[b].entry.occurredAt
      {
        var trace := RunTo(w);
        RecordedTimesAreSpacedUpToLag(trace, |trace| - 1, a, b);
      }
    } else {
      var w := LagsFor(y);
      TwoToldAre(w, y, 0, y + PAIR_WINDOW, PAIR_WINDOW - 1, y + PAIR_WINDOW);
      assert Reachable(w) && EarlierLater(w, 0, 1) && Lag(w, w.audit[0]) >= y && Lag(w, w.audit[1]) <= x;
    }
  }

  /** Every disclosure whose target was read within `held` of the clock reading relies on a consent that is active when
      it is read, if and only if `held` is zero. */
  lemma ActiveAtReadExactlyIfReadAtOnce(held: nat)
    ensures (forall w, a :: Reachable(w) && 0 <= a < |w.audit|
                            && w.audit[a].kept.readAt - w.audit[a].entry.occurredAt <= held ==>
               w.audit[a].kept.row.HasActiveConsent(w.audit[a].kept.readAt)) <==> held == 0
  {
    if held == 0 {
      forall w, a | Reachable(w) && 0 <= a < |w.audit|
                    && w.audit[a].kept.readAt - w.audit[a].entry.occurredAt <= held
        ensures w.audit[a].kept.row.HasActiveConsent(w.audit[a].kept.readAt)
      {
        var trace := RunTo(w);
        ReachableInv(trace, |trace| - 1);
        assert DisclosureOk(w, w.audit[a]);
      }
    } else {
      var w := OldConsentIsReliedOn(1);
      assert Reachable(w) && w.audit[0].kept.readAt - w.audit[0].entry.occurredAt <= held;
    }
  }
}
