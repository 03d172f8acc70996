/** Whole runs of the presence service: any number of queries, settings operations and TOTP operations by any
    users, interleaved one read, one limiter command or one write at a time, while the clock moves on.
    The index is not trusted for anything here: whatever it answers, stale, raced or wrong, is allowed. */
module PresenceRun {
  import opened Wrappers
  import opened Presence
  import opened Database
  import opened Settings
  import Nearby
  import L = LimiterRun

  // ----- what happened to the settings and factors, and the tables that follow from it -----

  /** Verifying a code and granting consent take two steps each, and remember in between: `read` and `check` are the
      places in the history of the step they go on from. */
  datatype Act =
    | Enroll(secret: string)
    | Accept(secret: string)  // Verify read this secret, not yet activated, and a code for it was right
    | Mark(read: nat)         // and then activated whatever secret the user had by then
    | Check                   // GrantConsent found the factor activated
    | Grant(check: nat)       // and then wrote the row
    | Revoke
    | Write(input: UpdateInput)

  datatype Event = Event(user: string, act: Act, at: int)

  predicate IsWrite(c: Act) {
    c.Grant? || c.Revoke? || c.Write?
  }

  function RowStep(row: PrivacySettings, c: Act, at: int): PrivacySettings {
    match c
    case Grant(_) => Granted(row, at)
    case Revoke => Revoked(row, at)
    case Write(input) => Updated(row, input, at)
    case _ => row
  }

  function FactorStep(f: Option<Secret>, c: Act, at: int): Option<Secret> {
    match c
    case Enroll(secret) => Some(Secret(secret, None))
    case Mark(_) => if f.Some? then Some(f.value.(verifiedAt := Some(at))) else None
    case _ => f
  }

  /** The row and the factor of a user after a history. */
  function RowAfter(h: seq<Event>, u: string): PrivacySettings {
    if h == [] then DefaultPrivacySettings(u)
    else
      var e := h[|h| - 1];
      var before := RowAfter(h[..|h| - 1], u);
      if e.user == u then RowStep(before, e.act, e.at) else before
  }

  function FactorAfter(h: seq<Event>, u: string): Option<Secret> {
    if h == [] then None
    else
      var e := h[|h| - 1];
      var before := FactorAfter(h[..|h| - 1], u);
      if e.user == u then FactorStep(before, e.act, e.at) else before
  }

  predicate Verified(f: Option<Secret>) {
    f.Some? && f.value.verifiedAt.Some?
  }

  // ----- queries -----

  /** One hit of the index, with the distance measured to it. */
  datatype Prospect = Prospect(userId: string, dist: real)

  /** A prospect that passed the filters; `seen` is how much history the target's row reflected when it was read, and
      `readAt` is when that was. */
  datatype Kept = Kept(userId: string, dist: real, row: PrivacySettings, seen: nat, readAt: int)

  /** A survivor; `adm` is its place among the admissions of its pair key. */
  datatype Held = Held(kept: Kept, adm: nat)

  datatype Phase =
    | Asked | Searching | Daily | DailyArming | Filtering | Pairing(kept: Kept) | PairArming(keptToo: Kept)
    | Reporting | Done | Failed

  datatype Query = Query(user: string, row: PrivacySettings, seen: nat, stamp: int, raw: seq<Prospect>, i: nat,
                         held: seq<Held>, details: set<string>, j: nat, results: seq<(string, DistanceBucket)>,
                         phase: Phase)

  /** An audit entry together with what led to it, and when it was appended. */
  datatype Disclosure = Disclosure(query: nat, entry: AuditLogEntry, adm: nat, kept: Kept,
                                   asker: PrivacySettings, askerSeen: nat, appended: int)

  datatype World = World(lim: L.State, rows: map<string, PrivacySettings>, secrets: map<string, Secret>,
                         history: seq<Event>, queries: map<nat, Query>, audit: seq<Disclosure>)

  datatype Step =
    | Tick(d: nat)
    | Apply(user: string, act: Act)
    | Begin(q: nat, user: string)            // read the requester's row
    | Stamp(q: nat)                          // read the clock, check consent
    | Search(q: nat, raw: seq<Prospect>)     // whatever the index answers
    | DailyIncr(q: nat)
    | DailyExpire(q: nat)
    | ReadTarget(q: nat, blocked: bool, mutual: bool)
    | PairIncr(q: nat)
    | PairExpire(q: nat)
    | Detail(q: nat, details: set<string>)   // whoever still has a detail key
    | Report(q: nat)
    | Fail(q: nat)                           // any dependency fails, or the process dies
    | IncrReplyLost(q: nat)
    | ExpireReplyLost(q: nat)

  function PairKeyOf(q: Query, k: Kept): string {
    PairKey(q.user, k.userId)
  }

  /** The limiter key a query is busy with. */
  function BusyKey(q: Query): string {
    match q.phase
    case Daily => DailyKey(q.user)
    case DailyArming => DailyKey(q.user)
    case Pairing(k) => PairKeyOf(q, k)
    case PairArming(k) => PairKeyOf(q, k)
    case _ => ""
  }

  predicate Arming(p: Phase) {
    p.DailyArming? || p.PairArming?
  }

  /** Step `k` of the history is one of this user's, and no other step has gone on from it. */
  predicate GoesOnFrom(h: seq<Event>, u: string, c: Act, k: nat) {
    k < |h| && h[k].user == u && forall l :: 0 <= l < |h| ==> h[l].act != c
  }

  predicate ActAllowed(w: World, u: string, c: Act) {
    match c
    case Accept(secret) => u in w.secrets && w.secrets[u] == Secret(secret, None)
    case Mark(read) => GoesOnFrom(w.history, u, c, read) && w.history[read].act.Accept?
    case Check => u in w.secrets && w.secrets[u].verifiedAt.Some?
    case Grant(check) => GoesOnFrom(w.history, u, c, check) && w.history[check].act.Check?
    case Write(input) => Rejects(input).None?
    case _ => true
  }

  predicate Enabled(w: World, s: Step) {
    match s
    case Tick(_) => true
    case Apply(u, c) => ActAllowed(w, u, c)
    case Begin(q, _) => q !in w.queries
    case Stamp(q) => q in w.queries && w.queries[q].phase.Asked?
    case Search(q, _) => q in w.queries && w.queries[q].phase.Searching?
    case DailyIncr(q) => q in w.queries && w.queries[q].phase.Daily?
    case DailyExpire(q) => q in w.queries && w.queries[q].phase.DailyArming? && Waits(w, q)
    case ReadTarget(q, _, _) => q in w.queries && w.queries[q].phase.Filtering? && w.queries[q].i < |w.queries[q].raw|
    case PairIncr(q) => q in w.queries && w.queries[q].phase.Pairing?
    case PairExpire(q) => q in w.queries && w.queries[q].phase.PairArming? && Waits(w, q)
    case Detail(q, _) => q in w.queries && w.queries[q].phase.Filtering? && w.queries[q].i == |w.queries[q].raw|
    case Report(q) => q in w.queries && w.queries[q].phase.Reporting?
    case Fail(q) => q in w.queries && !w.queries[q].phase.Done?
    case IncrReplyLost(q) => q in w.queries && (w.queries[q].phase.Daily? || w.queries[q].phase.Pairing?)
    case ExpireReplyLost(q) => q in w.queries && Arming(w.queries[q].phase) && Waits(w, q)
  }

  predicate Waits(w: World, q: nat)
    requires q in w.queries
  {
    q in L.Get(w.lim, BusyKey(w.queries[q])).waiting
  }

  function Put(w: World, q: nat, query: Query): World {
    w.(queries := w.queries[q := query])
  }

  function LimStep(w: World, s: L.Step): World {
    w.(lim := L.Do(QueryPolicy, w.lim, s))
  }

  /** Whether a limiter step of `q` on `key` let the call through. */
  predicate Admitted(before: World, after: World, key: string) {
    |L.Get(after.lim, key).log| > |L.Get(before.lim, key).log|
  }

  function Hold(w: World, query: Query, k: Kept): Query {
    var log := L.Get(w.lim, PairKeyOf(query, k)).log;
    query.(held := query.held + [Held(k, if log == [] then 0 else |log| - 1)], i := query.i + 1, phase := Filtering)
  }

  function DoApply(w: World, u: string, c: Act): World {
    var w1 := w.(history := w.history + [Event(u, c, w.lim.now)]);
    if IsWrite(c) then w1.(rows := w.rows[u := RowStep(SettingsOf(w.rows, u), c, w.lim.now)])
    else
      var f := FactorStep(SecretOf(w, u), c, w.lim.now);
      if f.Some? then w1.(secrets := w.secrets[u := f.value]) else w1
  }

  function DoReport(w: World, q: nat, query: Query): World {
    if query.j >= |query.held| then Put(w, q, query.(phase := Done))
    else
      var k := query.held[query.j].kept;
      var bucket := BucketFor(k.dist);
      var next := query.(j := query.j + 1);
      if k.userId !in query.details || bucket.BucketNone? then Put(w, q, next)
      else
        var entry := AuditLogEntry(query.user, k.userId, query.stamp, bucket, ENDPOINT);
        Put(w, q, next.(results := query.results + [(k.userId, bucket)]))
          .(audit := w.audit + [Disclosure(q, entry, query.held[query.j].adm, k, query.row, query.seen, w.lim.now)])
  }

  function Do(w: World, s: Step): World
    requires Enabled(w, s)
  {
    match s
    case Tick(d) => LimStep(w, L.Tick(d))
    case Apply(u, c) => DoApply(w, u, c)
    case Begin(q, u) =>
      Put(w, q, Query(u, SettingsOf(w.rows, u), |w.history|, 0, [], 0, [], {}, 0, [], Asked))
    case Stamp(q) =>
      var query := w.queries[q];
      Put(w, q, query.(stamp := w.lim.now,
                       phase := if CheckConsent(query.row, w.lim.now).Ok? then Searching else Failed))
    case Search(q, raw) =>
      Put(w, q, w.queries[q].(raw := raw, phase := if raw == [] then Done else Daily))
    case DailyIncr(q) =>
      var key := BusyKey(w.queries[q]);
      var w1 := LimStep(w, L.IncrCall(q, key));
      Put(w1, q, w.queries[q].(phase := if q in L.Get(w1.lim, key).waiting then DailyArming
                                        else if Admitted(w, w1, key) then Filtering else Done))
    case DailyExpire(q) =>
      Put(LimStep(w, L.ExpireCall(q, BusyKey(w.queries[q]))), q, w.queries[q].(phase := Filtering))
    case ReadTarget(q, blocked, mutual) =>
      var query := w.queries[q];
      var p := query.raw[query.i];
      var row := SettingsOf(w.rows, p.userId);
      if p.userId != query.user && Nearby.Passes(query.row, row, blocked, mutual, p.dist, query.stamp)
      then Put(w, q, query.(phase := Pairing(Kept(p.userId, p.dist, row, |w.history|, w.lim.now))))
      else Put(w, q, query.(i := query.i + 1))
    case PairIncr(q) =>
      var query := w.queries[q];
      var key := BusyKey(query);
      var w1 := LimStep(w, L.IncrCall(q, key));
      Put(w1, q, if q in L.Get(w1.lim, key).waiting then query.(phase := PairArming(query.phase.kept))
                 else if Admitted(w, w1, key) then Hold(w1, query, query.phase.kept)
                 else query.(i := query.i + 1, phase := Filtering))
    case PairExpire(q) =>
      var query := w.queries[q];
      var w1 := LimStep(w, L.ExpireCall(q, BusyKey(query)));
      Put(w1, q, Hold(w1, query, query.phase.keptToo))
    case Detail(q, details) =>
      Put(w, q, w.queries[q].(details := details, phase := if w.queries[q].held == [] then Done else Reporting))
    case Report(q) => DoReport(w, q, w.queries[q])
    case Fail(q) =>
      var w1 := if Arming(w.queries[q].phase) && Waits(w, q)
                then LimStep(w, L.Crash(q, BusyKey(w.queries[q]))) else w;
      Put(w1, q, w.queries[q].(phase := Failed))
    case IncrReplyLost(q) =>
      Put(LimStep(w, L.IncrReplyLost(BusyKey(w.queries[q]))), q, w.queries[q].(phase := Failed))
    case ExpireReplyLost(q) =>
      Put(LimStep(w, L.ExpireReplyLost(q, BusyKey(w.queries[q]))), q, w.queries[q].(phase := Failed))
  }

  predicate Initial(w: World) {
    w.lim.keys == map[] && w.rows == map[] && w.secrets == map[] && w.history == [] && w.queries == map[] && w.audit == []
  }

  ghost predicate IsRun(trace: seq<World>) {
    && trace != [] && Initial(trace[0])
    && forall i :: 0 < i < |trace| ==> FollowsAt(trace, i)
  }

  ghost predicate FollowsAt(trace: seq<World>, i: int)
    requires 0 < i < |trace|
  {
    Next(trace[i - 1], trace[i])
  }

  ghost predicate Next(w: World, w': World) {
    exists s :: Enabled(w, s) && w' == Do(w, s)
  }

  // ----- the invariant -----

  function SecretOf(w: World, u: string): Option<Secret> {
    if u in w.secrets then Some(w.secrets[u]) else None
  }

  ghost predicate RowsMatch(w: World) {
    forall u :: SettingsOf(w.rows, u) == RowAfter(w.history, u)
  }

  ghost predicate SecretsMatch(w: World) {
    forall u :: SecretOf(w, u) == FactorAfter(w.history, u)
  }

  ghost predicate TablesOk(w: World) {
    RowsMatch(w) && SecretsMatch(w)
  }

  ghost predicate EventOk(h: seq<Event>, g: nat)
    requires g < |h|
  {
    && (h[g].act.Accept? ==> FactorAfter(h[..g], h[g].user) == Some(Secret(h[g].act.secret, None)))
    && (h[g].act.Check? ==> Verified(FactorAfter(h[..g], h[g].user)))
    && (h[g].act.Write? ==> Rejects(h[g].act.input).None?)
    && OriginOk(h, g)
  }

  /** What a second step went on from is an earlier first step of the same user. */
  predicate OriginOk(h: seq<Event>, g: nat)
    requires g < |h|
  {
    match h[g].act
    case Mark(read) => read < g && h[read].user == h[g].user && h[read].act.Accept?
    case Grant(check) => check < g && h[check].user == h[g].user && h[check].act.Check?
    case _ => true
  }

  ghost predicate HistoryOk(w: World) {
    && (forall g :: 0 <= g < |w.history| ==> EventOk(w.history, g) && w.history[g].at <= w.lim.now)
  }

  ghost predicate ReadOk(h: seq<Event>, u: string, row: PrivacySettings, seen: nat, stamp: int) {
    seen <= |h| && row == RowAfter(h[..seen], u) && row.HasActiveConsent(stamp)
  }

  ghost predicate KeptOk(h: seq<Event>, k: Kept, stamp: int) {
    ReadOk(h, k.userId, k.row, k.seen, stamp) && !k.row.Hidden() && stamp <= k.readAt
  }

  /** Admission `adm` of the pair's key was granted to query `q`, and not before `since`. */
  predicate AdmittedTo(lim: L.State, user: string, target: string, adm: nat, q: nat, since: int) {
    var log := L.Get(lim, PairKey(user, target)).log;
    adm < |log| && log[adm].caller == q && since <= log[adm].answered <= lim.now
  }

  ghost predicate HeldOk(w: World, id: nat, q: Query, held: Held) {
    KeptOk(w.history, held.kept, q.stamp) && AdmittedTo(w.lim, q.user, held.kept.userId, held.adm, id, held.kept.readAt)
  }

  predicate Reads(p: Phase) {
    !p.Asked? && !p.Failed?
  }

  ghost predicate QueryOk(w: World, id: nat, q: Query) {
    && q.seen <= |w.history| && q.row == RowAfter(w.history[..q.seen], q.user)
    && (q.phase.Asked? ==> q.held == [])
    && (Reads(q.phase) ==> q.row.HasActiveConsent(q.stamp) && q.stamp <= w.lim.now)
    && (Reads(q.phase) ==> forall i :: 0 <= i < |q.held| ==> HeldOk(w, id, q, q.held[i]))
    && (forall i, j :: 0 <= i < j < |q.held| && q.held[i].kept.userId == q.held[j].kept.userId ==>
          q.held[i].adm < q.held[j].adm)
    && (q.phase.Pairing? ==> KeptOk(w.history, q.phase.kept, q.stamp) && q.phase.kept.readAt <= w.lim.now)
    && (q.phase.PairArming? ==> KeptOk(w.history, q.phase.keptToo, q.stamp) && q.phase.keptToo.readAt <= w.lim.now)
    && AuditOf(w.audit, id) == q.results
  }

  /** What has been disclosed by a query comes before what it still holds. */
  ghost predicate ReportedFirst(w: World, id: nat, q: Query) {
    forall a, i :: (0 <= a < |w.audit| && w.audit[a].query == id && q.j <= i < |q.held|
                    && w.audit[a].kept.userId == q.held[i].kept.userId) ==> w.audit[a].adm < q.held[i].adm
  }

  ghost predicate DisclosureOk(w: World, d: Disclosure) {
    && d.query in w.queries && d.entry.requesterId == w.queries[d.query].user
    && d.entry.targetId == d.kept.userId && d.entry.bucket == BucketFor(d.kept.dist) && !d.entry.bucket.BucketNone?
    && KeptOk(w.history, d.kept, d.entry.occurredAt)
    && ReadOk(w.history, d.entry.requesterId, d.asker, d.askerSeen, d.entry.occurredAt)
    && AdmittedTo(w.lim, d.entry.requesterId, d.entry.targetId, d.adm, d.query, d.kept.readAt)
    && L.Get(w.lim, PairKey(d.entry.requesterId, d.entry.targetId)).log[d.adm].answered <= d.appended <= w.lim.now
  }

  ghost predicate AuditOk(w: World) {
    && (forall a :: 0 <= a < |w.audit| ==> DisclosureOk(w, w.audit[a]))
    && (forall a, b :: (0 <= a < b < |w.audit| && w.audit[a].query == w.audit[b].query
                        && w.audit[a].kept.userId == w.audit[b].kept.userId) ==> w.audit[a].adm < w.audit[b].adm)
  }

  ghost predicate QueriesOk(w: World) {
    forall id :: id in w.queries ==> QueryOk(w, id, w.queries[id]) && ReportedFirst(w, id, w.queries[id])
  }

  ghost predicate Core(w: World) {
    QueriesOk(w) && AuditOk(w)
  }

  ghost predicate Inv(w: World) {
    L.Inv(QueryPolicy, w.lim) && TablesOk(w) && HistoryOk(w) && Core(w)
  }

  /** The targets and buckets a query has disclosed, in order. */
  function AuditOf(audit: seq<Disclosure>, id: nat): seq<(string, DistanceBucket)> {
    if audit == [] then []
    else
      var d := audit[|audit| - 1];
      AuditOf(audit[..|audit| - 1], id) + if d.query == id then [(d.entry.targetId, d.entry.bucket)] else []
  }

  // ----- every step only adds: to time, history, admissions, audit -----

  ghost predicate LogsGrow(a: L.State, b: L.State) {
    a.now <= b.now && forall key :: L.Get(a, key).log <= L.Get(b, key).log
  }

  lemma LimiterLogsGrow(s: L.State, step: L.Step)
    requires L.Enabled(s, step)
    ensures LogsGrow(s, L.Do(QueryPolicy, s, step))
  {
  }

  ghost predicate Extends(w: World, w': World) {
    && w.history <= w'.history
    && LogsGrow(w.lim, w'.lim)
    && w.audit <= w'.audit
    && (forall id :: id in w.queries ==> id in w'.queries && w'.queries[id].user == w.queries[id].user)
  }

  lemma PrefixKeepsHeldOk(w: World, w': World, id: nat, q: Query, held: Held)
    requires Extends(w, w') && HeldOk(w, id, q, held)
    ensures HeldOk(w', id, q, held)
  {
    assert w'.history[..held.kept.seen] == w.history[..held.kept.seen];
    assert L.Get(w.lim, PairKey(q.user, held.kept.userId)).log <= L.Get(w'.lim, PairKey(q.user, held.kept.userId)).log;
  }

  lemma PrefixKeepsDisclosureOk(w: World, w': World, d: Disclosure)
    requires Extends(w, w') && DisclosureOk(w, d)
    ensures DisclosureOk(w', d)
  {
    assert w'.history[..d.kept.seen] == w.history[..d.kept.seen];
    assert w'.history[..d.askerSeen] == w.history[..d.askerSeen];
    var key := PairKey(d.entry.requesterId, d.entry.targetId);
    assert L.Get(w.lim, key).log <= L.Get(w'.lim, key).log;
  }

  lemma PrefixKeepsQueryOk(w: World, w': World, id: nat, q: Query)
    requires Extends(w, w') && QueryOk(w, id, q) && AuditOf(w'.audit, id) == AuditOf(w.audit, id)
    ensures QueryOk(w', id, q)
  {
    assert w'.history[..q.seen] == w.history[..q.seen];
    if Reads(q.phase) {
      forall i | 0 <= i < |q.held|
        ensures HeldOk(w', id, q, q.held[i])
      {
        PrefixKeepsHeldOk(w, w', id, q, q.held[i]);
      }
    }
    if q.phase.Pairing? {
      assert w'.history[..q.phase.kept.seen] == w.history[..q.phase.kept.seen];
    }
    if q.phase.PairArming? {
      assert w'.history[..q.phase.keptToo.seen] == w.history[..q.phase.keptToo.seen];
    }
  }

  lemma SameLogsGrow(a: L.State, b: L.State)
    requires a.keys == b.keys && a.now <= b.now
    ensures LogsGrow(a, b)
  {
  }

  lemma PrefixKeepsAuditOk(w: World, w': World)
    requires AuditOk(w) && Extends(w, w') && w'.audit == w.audit
    ensures AuditOk(w')
  {
    forall a | 0 <= a < |w'.audit|
      ensures DisclosureOk(w', w'.audit[a])
    {
      PrefixKeepsDisclosureOk(w, w', w.audit[a]);
    }
  }

  /** What must be shown of a step that leaves the audit log alone and moves query `id` at most. */
  lemma QuietStepKeepsCore(w: World, w': World, id: nat)
    requires Core(w) && OnlyMoves(w, w', id)
    requires id in w'.queries ==> QueryOk(w', id, w'.queries[id]) && ReportedFirst(w', id, w'.queries[id])
    ensures Core(w')
  {
    forall other | other in w'.queries && other != id
      ensures QueryOk(w', other, w'.queries[other]) && ReportedFirst(w', other, w'.queries[other])
    {
      PrefixKeepsQueryOk(w, w', other, w.queries[other]);
      assert ReportedFirst(w, other, w.queries[other]);
    }
    PrefixKeepsAuditOk(w, w');
  }

  /** A step that moves no query at all. */
  lemma IdleStepKeepsCore(w: World, w': World)
    requires Core(w)
    requires Extends(w, w') && w'.audit == w.audit && w'.queries == w.queries
    ensures Core(w')
  {
    forall id | id in w'.queries
      ensures QueryOk(w', id, w'.queries[id]) && ReportedFirst(w', id, w'.queries[id])
    {
      PrefixKeepsQueryOk(w, w', id, w.queries[id]);
      assert ReportedFirst(w, id, w.queries[id]);
    }
    PrefixKeepsAuditOk(w, w');
  }

  lemma TickKeepsCore(w: World, d: nat)
    requires Core(w)
    ensures Core(Do(w, Tick(d)))
  {
    SameLogsGrow(w.lim, Do(w, Tick(d)).lim);
    IdleStepKeepsCore(w, Do(w, Tick(d)));
  }

  lemma ApplyKeepsCore(w: World, u: string, c: Act)
    requires Core(w) && ActAllowed(w, u, c)
    ensures Core(Do(w, Apply(u, c)))
  {
    ApplyIs(w, u, c);
    SameLogsGrow(w.lim, w.lim);
    IdleStepKeepsCore(w, Do(w, Apply(u, c)));
  }

  /** What an act leaves alone, and that it is recorded. */
  lemma ApplyIs(w: World, u: string, c: Act)
    requires ActAllowed(w, u, c)
    ensures var w' := Do(w, Apply(u, c));
            && w'.history == w.history + [Event(u, c, w.lim.now)]
            && w'.lim == w.lim && w'.queries == w.queries && w'.audit == w.audit
  {
  }

  lemma ApplyKeepsHistory(w: World, u: string, c: Act)
    requires TablesOk(w) && HistoryOk(w) && ActAllowed(w, u, c)
    ensures HistoryOk(Do(w, Apply(u, c)))
  {
    var w' := Do(w, Apply(u, c));
    ApplyIs(w, u, c);
    forall g | 0 <= g < |w'.history|
      ensures EventOk(w'.history, g) && w'.history[g].at <= w'.lim.now
    {
      if g < |w.history| {
        EarlierEventOk(w.history, w'.history, g);
      } else {
        NewEventOk(w, u, c);
      }
    }
  }

  lemma RowAfterOne(h: seq<Event>, e: Event, u: string)
    ensures RowAfter(h + [e], u) == if e.user == u then RowStep(RowAfter(h, u), e.act, e.at) else RowAfter(h, u)
    ensures FactorAfter(h + [e], u) == if e.user == u then FactorStep(FactorAfter(h, u), e.act, e.at) else FactorAfter(h, u)
  {
    assert (h + [e])[..|h|] == h;
  }

  /** What an act does to the tables. */
  lemma ApplyOnTables(w: World, u: string, c: Act, v: string)
    requires ActAllowed(w, u, c)
    ensures var w' := Do(w, Apply(u, c));
            && SettingsOf(w'.rows, v)
               == (if v == u then RowStep(SettingsOf(w.rows, v), c, w.lim.now) else SettingsOf(w.rows, v))
            && SecretOf(w', v) == (if v == u then FactorStep(SecretOf(w, v), c, w.lim.now) else SecretOf(w, v))
  {
  }

  lemma ApplyKeepsTables(w: World, u: string, c: Act)
    requires TablesOk(w) && ActAllowed(w, u, c)
    ensures TablesOk(Do(w, Apply(u, c)))
  {
    var w' := Do(w, Apply(u, c));
    ApplyIs(w, u, c);
    forall v
      ensures SettingsOf(w'.rows, v) == RowAfter(w'.history, v) && SecretOf(w', v) == FactorAfter(w'.history, v)
    {
      ApplyOnTables(w, u, c, v);
      RowAfterOne(w.history, Event(u, c, w.lim.now), v);
      assert SettingsOf(w.rows, v) == RowAfter(w.history, v) && SecretOf(w, v) == FactorAfter(w.history, v);
    }
  }

  lemma EarlierEventOk(h: seq<Event>, longer: seq<Event>, g: nat)
    requires h <= longer && g < |h| && EventOk(h, g)
    ensures EventOk(longer, g)
  {
    assert longer[..g] == h[..g];
  }

  lemma NewEventOk(w: World, u: string, c: Act)
    requires TablesOk(w) && ActAllowed(w, u, c)
    ensures EventOk(w.history + [Event(u, c, w.lim.now)], |w.history|)
  {
    assert (w.history + [Event(u, c, w.lim.now)])[..|w.history|] == w.history;
  }

  lemma {:induction false} NobodyAudited(audit: seq<Disclosure>, id: nat)
    requires forall a :: 0 <= a < |audit| ==> audit[a].query != id
    ensures AuditOf(audit, id) == []
  {
    if audit != [] {
      NobodyAudited(audit[..|audit| - 1], id);
    }
  }

  lemma CoreGives(w: World, q: nat)
    requires Core(w) && q in w.queries
    ensures QueryOk(w, q, w.queries[q]) && ReportedFirst(w, q, w.queries[q])
  {
  }

  /** Only query `q` moves from `w` to `w'`, if any, and nothing is disclosed. */
  ghost predicate OnlyMoves(w: World, w': World, q: nat) {
    && Extends(w, w') && w'.audit == w.audit
    && forall other :: other in w'.queries && other != q ==>
         other in w.queries && w'.queries[other] == w.queries[other]
  }

  lemma PutOnlyMoves(w: World, q: nat, query: Query)
    requires q in w.queries ==> query.user == w.queries[q].user
    ensures OnlyMoves(w, Put(w, q, query), q)
  {
    SameLogsGrow(w.lim, w.lim);
  }

  lemma LimPutOnlyMoves(w: World, step: L.Step, q: nat, query: Query)
    requires L.Enabled(w.lim, step) && (q in w.queries ==> query.user == w.queries[q].user)
    ensures OnlyMoves(w, Put(LimStep(w, step), q, query), q)
  {
    LimiterLogsGrow(w.lim, step);
  }

  lemma MovedKeepsReportedFirst(w: World, w': World, q: nat, before: Query, after: Query)
    requires ReportedFirst(w, q, before) && w'.audit == w.audit
    requires after.held == before.held && after.j >= before.j
    ensures ReportedFirst(w', q, after)
  {
  }

  lemma BegunIsOk(w: World, w': World, q: nat, u: string)
    requires AuditOk(w) && TablesOk(w) && q !in w.queries
    requires w'.history == w.history && w'.audit == w.audit
    ensures var query := Query(u, SettingsOf(w.rows, u), |w.history|, 0, [], 0, [], {}, 0, [], Asked);
            QueryOk(w', q, query) && ReportedFirst(w', q, query)
  {
    assert forall a :: 0 <= a < |w.audit| ==> DisclosureOk(w, w.audit[a]);
    NobodyAudited(w.audit, q);
    assert w.history[..|w.history|] == w.history;
  }

  lemma BeginKeepsCore(w: World, q: nat, u: string)
    requires Core(w) && TablesOk(w) && q !in w.queries
    ensures Core(Do(w, Begin(q, u)))
  {
    var query := Query(u, SettingsOf(w.rows, u), |w.history|, 0, [], 0, [], {}, 0, [], Asked);
    PutOnlyMoves(w, q, query);
    BegunIsOk(w, Put(w, q, query), q, u);
    QuietStepKeepsCore(w, Put(w, q, query), q);
  }

  /** The steps by which a query only moves itself on: nothing new is held, nothing is disclosed. */
  lemma PlainMoveKeepsCore(w: World, q: nat, query: Query)
    requires Core(w) && q in w.queries && QueryOk(w, q, query)
    requires query.user == w.queries[q].user && query.held == w.queries[q].held && query.j >= w.queries[q].j
    ensures Core(Put(w, q, query))
  {
    var w' := Put(w, q, query);
    CoreGives(w, q);
    PutOnlyMoves(w, q, query);
    MovedKeepsReportedFirst(w, w', q, w.queries[q], query);
    PrefixKeepsQueryOk(w, w', q, query);
    QuietStepKeepsCore(w, w', q);
  }

  lemma StampKeepsCore(w: World, q: nat)
    requires Core(w) && Enabled(w, Stamp(q))
    ensures Core(Do(w, Stamp(q)))
  {
    var query := w.queries[q];
    CoreGives(w, q);
    PlainMoveKeepsCore(w, q, query.(stamp := w.lim.now,
                                    phase := if CheckConsent(query.row, w.lim.now).Ok? then Searching else Failed));
  }

  /** A query that only changes phase, and where it is in its lists, stays in order. */
  lemma MovedOnIsOk(w: World, q: nat, before: Query, after: Query)
    requires QueryOk(w, q, before) && Reads(before.phase) && !after.phase.Asked?
    requires after.(phase := before.phase, i := before.i, raw := before.raw, details := before.details) == before
    requires after.phase.Pairing? ==>
               KeptOk(w.history, after.phase.kept, before.stamp) && after.phase.kept.readAt <= w.lim.now
    requires after.phase.PairArming? ==>
               KeptOk(w.history, after.phase.keptToo, before.stamp) && after.phase.keptToo.readAt <= w.lim.now
    ensures QueryOk(w, q, after)
  {
    forall i | 0 <= i < |after.held|
      ensures HeldOk(w, q, after, after.held[i])
    {
      assert HeldOk(w, q, before, before.held[i]);
    }
  }

  lemma PassingIsKeptOk(w: World, query: Query, p: Prospect, blocked: bool, mutual: bool)
    requires TablesOk(w) && query.stamp <= w.lim.now
    requires Nearby.Passes(query.row, SettingsOf(w.rows, p.userId), blocked, mutual, p.dist, query.stamp)
    ensures KeptOk(w.history, Kept(p.userId, p.dist, SettingsOf(w.rows, p.userId), |w.history|, w.lim.now), query.stamp)
  {
    assert w.history[..|w.history|] == w.history;
  }

  lemma ReadTargetKeepsCore(w: World, q: nat, blocked: bool, mutual: bool)
    requires Core(w) && TablesOk(w) && Enabled(w, ReadTarget(q, blocked, mutual))
    ensures Core(Do(w, ReadTarget(q, blocked, mutual)))
  {
    var query := w.queries[q];
    var p := query.raw[query.i];
    var row := SettingsOf(w.rows, p.userId);
    CoreGives(w, q);
    if p.userId != query.user && Nearby.Passes(query.row, row, blocked, mutual, p.dist, query.stamp) {
      PassingIsKeptOk(w, query, p, blocked, mutual);
    }
    MovedOnIsOk(w, q, query, Do(w, ReadTarget(q, blocked, mutual)).queries[q]);
    PlainMoveKeepsCore(w, q, Do(w, ReadTarget(q, blocked, mutual)).queries[q]);
  }

  lemma SearchKeepsCore(w: World, q: nat, raw: seq<Prospect>)
    requires Core(w) && Enabled(w, Search(q, raw))
    ensures Core(Do(w, Search(q, raw)))
  {
    CoreGives(w, q);
    MovedOnIsOk(w, q, w.queries[q], Do(w, Search(q, raw)).queries[q]);
    PlainMoveKeepsCore(w, q, Do(w, Search(q, raw)).queries[q]);
  }

  lemma DetailKeepsCore(w: World, q: nat, details: set<string>)
    requires Core(w) && Enabled(w, Detail(q, details))
    ensures Core(Do(w, Detail(q, details)))
  {
    CoreGives(w, q);
    MovedOnIsOk(w, q, w.queries[q], Do(w, Detail(q, details)).queries[q]);
    PlainMoveKeepsCore(w, q, Do(w, Detail(q, details)).queries[q]);
  }

  /** A limiter step after which the query holds what it held before. */
  lemma LimiterMoveKeepsCore(w: World, step: L.Step, q: nat, query: Query)
    requires Core(w) && q in w.queries && L.Enabled(w.lim, step) && QueryOk(w, q, query)
    requires query.user == w.queries[q].user && query.held == w.queries[q].held && query.j == w.queries[q].j
    ensures Core(Put(LimStep(w, step), q, query))
  {
    var w' := Put(LimStep(w, step), q, query);
    CoreGives(w, q);
    LimPutOnlyMoves(w, step, q, query);
    MovedKeepsReportedFirst(w, w', q, w.queries[q], query);
    PrefixKeepsQueryOk(w, w', q, query);
    QuietStepKeepsCore(w, w', q);
  }

  lemma HoldIsOk(w: World, w': World, q: nat, query: Query, k: Kept, adm: nat)
    requires QueryOk(w, q, query) && Reads(query.phase) && Extends(w, w') && w'.audit == w.audit
    requires KeptOk(w.history, k, query.stamp)
    requires AdmittedTo(w'.lim, query.user, k.userId, adm, q, k.readAt)
    requires adm == |L.Get(w.lim, PairKeyOf(query, k)).log|
    ensures QueryOk(w', q, query.(held := query.held + [Held(k, adm)], i := query.i + 1, phase := Filtering))
  {
    var query' := query.(held := query.held + [Held(k, adm)], i := query.i + 1, phase := Filtering);
    PrefixKeepsQueryOk(w, w', q, query);
    assert w'.history[..k.seen] == w.history[..k.seen];
    forall i | 0 <= i < |query'.held|
      ensures HeldOk(w', q, query', query'.held[i])
    {
      assert i < |query.held| ==> HeldOk(w', q, query, query.held[i]);
    }
    forall i | 0 <= i < |query.held| && query.held[i].kept.userId == k.userId
      ensures query.held[i].adm < adm
    {
      assert HeldOk(w, q, query, query.held[i]);
    }
  }

  lemma HoldComesAfterReported(w: World, w': World, q: nat, query: Query, query': Query, k: Kept, adm: nat)
    requires AuditOk(w) && ReportedFirst(w, q, query) && w'.audit == w.audit
    requires q in w.queries && w.queries[q].user == query.user
    requires query'.j == query.j && query'.held == query.held + [Held(k, adm)]
    requires adm == |L.Get(w.lim, PairKeyOf(query, k)).log|
    ensures ReportedFirst(w', q, query')
  {
    forall b | 0 <= b < |w.audit| && w.audit[b].query == q && w.audit[b].kept.userId == k.userId
      ensures w.audit[b].adm < adm
    {
      assert DisclosureOk(w, w.audit[b]);
    }
  }

  /** Query `q` after it was admitted to a pair. */
  function AfterHold(w: World, step: L.Step, q: nat, k: Kept): World
    requires q in w.queries
  {
    Put(LimStep(w, step), q, Hold(LimStep(w, step), w.queries[q], k))
  }

  lemma HeldQueryIsOk(w: World, step: L.Step, q: nat, k: Kept, a: L.Admission)
    requires q in w.queries && QueryOk(w, q, w.queries[q]) && Extends(w, AfterHold(w, step, q, k))
    requires Reads(w.queries[q].phase) && KeptOk(w.history, k, w.queries[q].stamp) && k.readAt <= w.lim.now
    requires L.Get(LimStep(w, step).lim, PairKeyOf(w.queries[q], k)).log
          == L.Get(w.lim, PairKeyOf(w.queries[q], k)).log + [a]
    requires a.caller == q && a.answered == w.lim.now
    ensures QueryOk(AfterHold(w, step, q, k), q, Hold(LimStep(w, step), w.queries[q], k))
  {
    HoldIsOk(w, AfterHold(w, step, q, k), q, w.queries[q], k, |L.Get(w.lim, PairKeyOf(w.queries[q], k)).log|);
  }

  lemma HeldComesAfterReported(w: World, step: L.Step, q: nat, k: Kept, a: L.Admission)
    requires q in w.queries && ReportedFirst(w, q, w.queries[q]) && AuditOk(w)
    requires L.Get(LimStep(w, step).lim, PairKeyOf(w.queries[q], k)).log
          == L.Get(w.lim, PairKeyOf(w.queries[q], k)).log + [a]
    ensures ReportedFirst(AfterHold(w, step, q, k), q, Hold(LimStep(w, step), w.queries[q], k))
  {
    HoldComesAfterReported(w, AfterHold(w, step, q, k), q, w.queries[q], Hold(LimStep(w, step), w.queries[q], k), k,
                           |L.Get(w.lim, PairKeyOf(w.queries[q], k)).log|);
  }

  /** The limiter step that admits a query to a pair: the query now holds its target. */
  lemma HoldKeepsCore(w: World, step: L.Step, q: nat, k: Kept, a: L.Admission)
    requires Core(w) && q in w.queries && L.Enabled(w.lim, step)
    requires Reads(w.queries[q].phase) && KeptOk(w.history, k, w.queries[q].stamp) && k.readAt <= w.lim.now
    requires L.Get(LimStep(w, step).lim, PairKeyOf(w.queries[q], k)).log
          == L.Get(w.lim, PairKeyOf(w.queries[q], k)).log + [a]
    requires a.caller == q && a.answered == w.lim.now
    ensures Core(AfterHold(w, step, q, k))
  {
    CoreGives(w, q);
    LimPutOnlyMoves(w, step, q, Hold(LimStep(w, step), w.queries[q], k));
    HeldQueryIsOk(w, step, q, k, a);
    HeldComesAfterReported(w, step, q, k, a);
    QuietStepKeepsCore(w, AfterHold(w, step, q, k), q);
  }

  lemma DailyIncrKeepsCore(w: World, q: nat)
    requires Core(w) && Enabled(w, DailyIncr(q))
    ensures Core(Do(w, DailyIncr(q)))
  {
    CoreGives(w, q);
    MovedOnIsOk(w, q, w.queries[q], Do(w, DailyIncr(q)).queries[q]);
    LimiterMoveKeepsCore(w, L.IncrCall(q, BusyKey(w.queries[q])), q, Do(w, DailyIncr(q)).queries[q]);
  }

  lemma DailyExpireKeepsCore(w: World, q: nat)
    requires Core(w) && Enabled(w, DailyExpire(q))
    ensures Core(Do(w, DailyExpire(q)))
  {
    CoreGives(w, q);
    MovedOnIsOk(w, q, w.queries[q], Do(w, DailyExpire(q)).queries[q]);
    LimiterMoveKeepsCore(w, L.ExpireCall(q, BusyKey(w.queries[q])), q, Do(w, DailyExpire(q)).queries[q]);
  }

  /** With a limit of one only the call that creates the counter is admitted, and that one has to wait for its
      EXPIRE first: no INCR of a pair lets its query through at once. */
  lemma PairIncrAdmitsNobody(w: World, q: nat)
    requires Enabled(w, PairIncr(q))
    ensures var key := BusyKey(w.queries[q]);
            !Admitted(w, LimStep(w, L.IncrCall(q, key)), key)
  {
    PrefixDecides(w.queries[q].user, w.queries[q].phase.kept.userId);
  }

  lemma PairIncrKeepsCore(w: World, q: nat)
    requires Core(w) && Enabled(w, PairIncr(q))
    ensures Core(Do(w, PairIncr(q)))
  {
    CoreGives(w, q);
    PairIncrAdmitsNobody(w, q);
    MovedOnIsOk(w, q, w.queries[q], Do(w, PairIncr(q)).queries[q]);
    LimiterMoveKeepsCore(w, L.IncrCall(q, BusyKey(w.queries[q])), q, Do(w, PairIncr(q)).queries[q]);
  }

  lemma ExpireAdmits(lim: L.State, key: string, q: nat)
    requires L.Inv(QueryPolicy, lim) && q in L.Get(lim, key).waiting
    ensures var log := L.Get(lim, key).log;
            var log' := L.Get(L.Do(QueryPolicy, lim, L.ExpireCall(q, key)), key).log;
            |log'| == |log| + 1 && log' == log + [log'[|log|]] && log'[|log|].caller == q
            && log'[|log|].answered == lim.now
  {
    assert L.KeyInv(L.Get(lim, key), QueryPolicy.limit(key), QueryPolicy.window(key), lim.now);
  }

  lemma ArmedPairAdmits(w: World, q: nat) returns (a: L.Admission)
    requires L.Inv(QueryPolicy, w.lim) && Enabled(w, PairExpire(q))
    ensures var key := PairKeyOf(w.queries[q], w.queries[q].phase.keptToo);
            L.Get(LimStep(w, L.ExpireCall(q, key)).lim, key).log == L.Get(w.lim, key).log + [a]
    ensures a.caller == q && a.answered == w.lim.now
  {
    var key := PairKeyOf(w.queries[q], w.queries[q].phase.keptToo);
    ExpireAdmits(w.lim, key, q);
    a := L.Get(LimStep(w, L.ExpireCall(q, key)).lim, key).log[|L.Get(w.lim, key).log|];
  }

  lemma PairExpireAdmittedKeepsCore(w: World, q: nat, a: L.Admission)
    requires Core(w) && Enabled(w, PairExpire(q))
    requires var key := PairKeyOf(w.queries[q], w.queries[q].phase.keptToo);
             L.Get(LimStep(w, L.ExpireCall(q, key)).lim, key).log == L.Get(w.lim, key).log + [a]
    requires a.caller == q && a.answered == w.lim.now
    ensures Core(Do(w, PairExpire(q)))
  {
    var query := w.queries[q];
    CoreGives(w, q);
    HoldKeepsCore(w, L.ExpireCall(q, PairKeyOf(query, query.phase.keptToo)), q, query.phase.keptToo, a);
  }

  lemma PairExpireKeepsCore(w: World, q: nat)
    requires Core(w) && L.Inv(QueryPolicy, w.lim) && Enabled(w, PairExpire(q))
    ensures Core(Do(w, PairExpire(q)))
  {
    var a := ArmedPairAdmits(w, q);
    PairExpireAdmittedKeepsCore(w, q, a);
  }

  lemma FailedIsOk(w: World, q: nat, query: Query)
    requires QueryOk(w, q, query)
    ensures QueryOk(w, q, query.(phase := Failed))
  {
  }

  lemma FailKeepsCore(w: World, q: nat)
    requires Core(w) && Enabled(w, Fail(q))
    ensures Core(Do(w, Fail(q)))
  {
    var query := w.queries[q];
    CoreGives(w, q);
    FailedIsOk(w, q, query);
    if Arming(query.phase) && Waits(w, q) {
      LimiterMoveKeepsCore(w, L.Crash(q, BusyKey(query)), q, query.(phase := Failed));
    } else {
      PlainMoveKeepsCore(w, q, query.(phase := Failed));
    }
  }

  lemma IncrReplyLostKeepsCore(w: World, q: nat)
    requires Core(w) && Enabled(w, IncrReplyLost(q))
    ensures Core(Do(w, IncrReplyLost(q)))
  {
    FailedIsOk(w, q, w.queries[q]);
    LimiterMoveKeepsCore(w, L.IncrReplyLost(BusyKey(w.queries[q])), q, w.queries[q].(phase := Failed));
  }

  lemma ExpireReplyLostKeepsCore(w: World, q: nat)
    requires Core(w) && Enabled(w, ExpireReplyLost(q))
    ensures Core(Do(w, ExpireReplyLost(q)))
  {
    FailedIsOk(w, q, w.queries[q]);
    LimiterMoveKeepsCore(w, L.ExpireReplyLost(q, BusyKey(w.queries[q])), q, w.queries[q].(phase := Failed));
  }

  lemma AuditOfSnoc(audit: seq<Disclosure>, d: Disclosure, id: nat)
    ensures AuditOf(audit + [d], id)
         == AuditOf(audit, id) + if d.query == id then [(d.entry.targetId, d.entry.bucket)] else []
  {
    assert (audit + [d])[..|audit + [d]| - 1] == audit;
  }

  lemma DiscloserIsOk(w: World, w': World, q: nat, query: Query, results: seq<(string, DistanceBucket)>)
    requires QueryOk(w, q, query) && w'.history == w.history && w'.lim == w.lim
    requires AuditOf(w'.audit, q) == results
    ensures QueryOk(w', q, query.(j := query.j + 1, results := results))
  {
    var query' := query.(j := query.j + 1, results := results);
    if Reads(query.phase) {
      forall i | 0 <= i < |query'.held|
        ensures HeldOk(w', q, query', query'.held[i])
      {
        assert HeldOk(w, q, query, query.held[i]);
      }
    }
  }

  lemma DisclosedComesFirst(w: World, w': World, q: nat, query: Query, query': Query, d: Disclosure)
    requires QueryOk(w, q, query) && ReportedFirst(w, q, query) && query.j < |query.held|
    requires d.adm == query.held[query.j].adm && d.kept == query.held[query.j].kept
    requires query'.j == query.j + 1 && query'.held == query.held && w'.audit == w.audit + [d]
    ensures ReportedFirst(w', q, query')
  {
  }

  lemma AuditStaysOk(w: World, w': World, q: nat, d: Disclosure)
    requires AuditOk(w) && Extends(w, w') && w'.audit == w.audit + [d] && DisclosureOk(w', d) && d.query == q
    requires forall a :: 0 <= a < |w.audit| && w.audit[a].query == q && w.audit[a].kept.userId == d.kept.userId
                         ==> w.audit[a].adm < d.adm
    ensures AuditOk(w')
  {
    forall a | 0 <= a < |w'.audit|
      ensures DisclosureOk(w', w'.audit[a])
    {
      if a < |w.audit| {
        PrefixKeepsDisclosureOk(w, w', w.audit[a]);
      }
    }
  }

  lemma OthersStayOk(w: World, w': World, q: nat, d: Disclosure)
    requires QueriesOk(w) && Extends(w, w') && w'.audit == w.audit + [d] && d.query == q
    requires forall other :: other in w'.queries && other != q ==>
               other in w.queries && w'.queries[other] == w.queries[other]
    ensures forall other :: other in w'.queries && other != q ==>
              QueryOk(w', other, w'.queries[other]) && ReportedFirst(w', other, w'.queries[other])
  {
    forall other | other in w'.queries && other != q
      ensures QueryOk(w', other, w'.queries[other]) && ReportedFirst(w', other, w'.queries[other])
    {
      AuditOfSnoc(w.audit, d, other);
      assert ReportedFirst(w, other, w.queries[other]);
      PrefixKeepsQueryOk(w, w', other, w.queries[other]);
    }
  }

  function DisclosureOf(q: nat, query: Query, h: Held, now: int): Disclosure {
    Disclosure(q, AuditLogEntry(query.user, h.kept.userId, query.stamp, BucketFor(h.kept.dist), ENDPOINT), h.adm,
               h.kept, query.row, query.seen, now)
  }

  lemma HeldIsDisclosable(w: World, w': World, q: nat, query: Query, h: Held)
    requires QueryOk(w, q, query) && Reads(query.phase) && h in query.held && !BucketFor(h.kept.dist).BucketNone?
    requires w'.history == w.history && w'.lim == w.lim && q in w'.queries && w'.queries[q].user == query.user
    ensures DisclosureOk(w', DisclosureOf(q, query, h, w.lim.now))
  {
    var i :| 0 <= i < |query.held| && query.held[i] == h;
    assert HeldOk(w, q, query, query.held[i]);
  }

  lemma DisclosingExtends(w: World, w': World, q: nat, next: Query, d: Disclosure)
    requires q in w.queries && next.user == w.queries[q].user
    requires w' == w.(queries := w.queries[q := next], audit := w.audit + [d])
    ensures Extends(w, w')
    ensures forall other :: other in w'.queries && other != q ==>
              other in w.queries && w'.queries[other] == w.queries[other]
  {
    SameLogsGrow(w.lim, w.lim);
  }

  /** What query `q` is after it disclosed survivor `j`. */
  function Disclosed(query: Query): Query
    requires query.j < |query.held|
  {
    var k := query.held[query.j].kept;
    query.(j := query.j + 1, results := query.results + [(k.userId, BucketFor(k.dist))])
  }

  function AfterDisclosing(w: World, q: nat): World
    requires q in w.queries && w.queries[q].j < |w.queries[q].held|
  {
    var query := w.queries[q];
    w.(queries := w.queries[q := Disclosed(query)],
       audit := w.audit + [DisclosureOf(q, query, query.held[query.j], w.lim.now)])
  }

  lemma DisclosingKeepsQuery(w: World, q: nat)
    requires q in w.queries && QueryOk(w, q, w.queries[q]) && ReportedFirst(w, q, w.queries[q])
    requires w.queries[q].j < |w.queries[q].held|
    ensures var w' := AfterDisclosing(w, q);
            QueryOk(w', q, w'.queries[q]) && ReportedFirst(w', q, w'.queries[q])
  {
    var query, w' := w.queries[q], AfterDisclosing(w, q);
    var d := DisclosureOf(q, query, query.held[query.j], w.lim.now);
    AuditOfSnoc(w.audit, d, q);
    DiscloserIsOk(w, w', q, query, w'.queries[q].results);
    DisclosedComesFirst(w, w', q, query, w'.queries[q], d);
  }

  lemma DisclosingKeepsAudit(w: World, q: nat)
    requires AuditOk(w) && q in w.queries && QueryOk(w, q, w.queries[q]) && ReportedFirst(w, q, w.queries[q])
    requires w.queries[q].phase.Reporting? && w.queries[q].j < |w.queries[q].held|
    requires !BucketFor(w.queries[q].held[w.queries[q].j].kept.dist).BucketNone?
    requires Extends(w, AfterDisclosing(w, q))
    ensures AuditOk(AfterDisclosing(w, q))
  {
    var query := w.queries[q];
    HeldIsDisclosable(w, AfterDisclosing(w, q), q, query, query.held[query.j]);
    AuditStaysOk(w, AfterDisclosing(w, q), q, DisclosureOf(q, query, query.held[query.j], w.lim.now));
  }

  /** Disclosing survivor `j` of query `q`. */
  lemma DiscloseKeepsCore(w: World, q: nat)
    requires Core(w) && q in w.queries && w.queries[q].phase.Reporting? && w.queries[q].j < |w.queries[q].held|
    requires !BucketFor(w.queries[q].held[w.queries[q].j].kept.dist).BucketNone?
    ensures Core(AfterDisclosing(w, q))
  {
    var query, w' := w.queries[q], AfterDisclosing(w, q);
    var d := DisclosureOf(q, query, query.held[query.j], w.lim.now);
    CoreGives(w, q);
    DisclosingExtends(w, w', q, w'.queries[q], d);
    DisclosingKeepsQuery(w, q);
    DisclosingKeepsAudit(w, q);
    OthersStayOk(w, w', q, d);
  }

  lemma SkipIsOk(w: World, q: nat, query: Query)
    requires QueryOk(w, q, query) && query.phase.Reporting?
    ensures QueryOk(w, q, query.(phase := Done)) && QueryOk(w, q, query.(j := query.j + 1))
  {
    assert forall i :: 0 <= i < |query.held| ==> HeldOk(w, q, query, query.held[i]);
    assert forall i :: 0 <= i < |query.held| ==> HeldOk(w, q, query.(phase := Done), query.held[i]);
    assert forall i :: 0 <= i < |query.held| ==> HeldOk(w, q, query.(j := query.j + 1), query.held[i]);
  }

  lemma ReportDiscloses(w: World, q: nat)
    requires Enabled(w, Report(q)) && w.queries[q].j < |w.queries[q].held|
    requires var k := w.queries[q].held[w.queries[q].j].kept;
             k.userId in w.queries[q].details && !BucketFor(k.dist).BucketNone?
    ensures Do(w, Report(q)) == AfterDisclosing(w, q)
  {
  }

  /** What query `q` is after a turn of the reporting loop that discloses nothing. */
  function PassedOver(query: Query): Query {
    if query.j >= |query.held| then query.(phase := Done) else query.(j := query.j + 1)
  }

  predicate Discloses(query: Query) {
    && query.j < |query.held| && query.held[query.j].kept.userId in query.details
    && !BucketFor(query.held[query.j].kept.dist).BucketNone?
  }

  lemma ReportPassesOver(w: World, q: nat)
    requires Enabled(w, Report(q)) && !Discloses(w.queries[q])
    ensures Do(w, Report(q)) == Put(w, q, PassedOver(w.queries[q]))
  {
  }

  lemma PassingOverKeepsCore(w: World, q: nat)
    requires Core(w) && q in w.queries && w.queries[q].phase.Reporting?
    ensures Core(Put(w, q, PassedOver(w.queries[q])))
  {
    CoreGives(w, q);
    SkipIsOk(w, q, w.queries[q]);
    PlainMoveKeepsCore(w, q, PassedOver(w.queries[q]));
  }

  lemma ReportKeepsCore(w: World, q: nat)
    requires Core(w) && Enabled(w, Report(q))
    ensures Core(Do(w, Report(q)))
  {
    if Discloses(w.queries[q]) {
      DiscloseKeepsCore(w, q);
      ReportDiscloses(w, q);
    } else {
      PassingOverKeepsCore(w, q);
      ReportPassesOver(w, q);
    }
  }

  // ----- every run -----

  lemma StepKeepsTables(w: World, s: Step)
    requires TablesOk(w) && HistoryOk(w) && Enabled(w, s)
    ensures TablesOk(Do(w, s)) && HistoryOk(Do(w, s))
  {
    if s.Apply? {
      ApplyKeepsTables(w, s.user, s.act);
      ApplyKeepsHistory(w, s.user, s.act);
    } else {
      QuietTablesOk(w, Do(w, s));
    }
  }

  lemma QuietTablesOk(w: World, w': World)
    requires TablesOk(w) && HistoryOk(w)
    requires w'.rows == w.rows && w'.secrets == w.secrets && w'.history == w.history && w.lim.now <= w'.lim.now
    ensures TablesOk(w') && HistoryOk(w')
  {
    assert forall g :: 0 <= g < |w.history| ==> EventOk(w.history, g) && w.history[g].at <= w.lim.now;
  }

  lemma PolicyIsPositive()
    ensures L.Positive(QueryPolicy)
  {
  }

  /** The limiter command of a step, if it has one. */
  function LimiterStep(w: World, s: Step): Option<L.Step>
    requires Enabled(w, s)
  {
    match s
    case Tick(d) => Some(L.Tick(d))
    case DailyIncr(q) => Some(L.IncrCall(q, BusyKey(w.queries[q])))
    case PairIncr(q) => Some(L.IncrCall(q, BusyKey(w.queries[q])))
    case DailyExpire(q) => Some(L.ExpireCall(q, BusyKey(w.queries[q])))
    case PairExpire(q) => Some(L.ExpireCall(q, BusyKey(w.queries[q])))
    case Fail(q) => if Arming(w.queries[q].phase) && Waits(w, q) then Some(L.Crash(q, BusyKey(w.queries[q]))) else None
    case IncrReplyLost(q) => Some(L.IncrReplyLost(BusyKey(w.queries[q])))
    case ExpireReplyLost(q) => Some(L.ExpireReplyLost(q, BusyKey(w.queries[q])))
    case _ => None
  }

  lemma StepMovesLimiter(w: World, s: Step)
    requires Enabled(w, s)
    ensures var l := LimiterStep(w, s);
            && (l.Some? ==> L.Enabled(w.lim, l.value) && Do(w, s).lim == L.Do(QueryPolicy, w.lim, l.value))
            && (l.None? ==> Do(w, s).lim == w.lim)
  {
  }

  lemma StepKeepsLimiter(w: World, s: Step)
    requires L.Inv(QueryPolicy, w.lim) && Enabled(w, s)
    ensures L.Inv(QueryPolicy, Do(w, s).lim)
  {
    PolicyIsPositive();
    StepMovesLimiter(w, s);
    var l := LimiterStep(w, s);
    if l.Some? {
      L.StepKeepsInv(QueryPolicy, w.lim, l.value);
    }
  }

  lemma LimiterStepKeepsCore(w: World, s: Step)
    requires Core(w) && L.Inv(QueryPolicy, w.lim) && Enabled(w, s)
    requires s.DailyIncr? || s.DailyExpire? || s.PairIncr? || s.PairExpire? || s.IncrReplyLost? || s.ExpireReplyLost?
    ensures Core(Do(w, s))
  {
    match s
    case DailyIncr(q) => DailyIncrKeepsCore(w, q);
    case DailyExpire(q) => DailyExpireKeepsCore(w, q);
    case PairIncr(q) => PairIncrKeepsCore(w, q);
    case PairExpire(q) => PairExpireKeepsCore(w, q);
    case IncrReplyLost(q) => IncrReplyLostKeepsCore(w, q);
    case ExpireReplyLost(q) => ExpireReplyLostKeepsCore(w, q);
  }

  lemma QueryStepKeepsCore(w: World, s: Step)
    requires Core(w) && TablesOk(w) && Enabled(w, s)
    requires s.Stamp? || s.Search? || s.ReadTarget?
    ensures Core(Do(w, s))
  {
    match s
    case Stamp(q) => StampKeepsCore(w, q);
    case Search(q, raw) => SearchKeepsCore(w, q, raw);
    case ReadTarget(q, b, m) => ReadTargetKeepsCore(w, q, b, m);
  }

  lemma EndingStepKeepsCore(w: World, s: Step)
    requires Core(w) && Enabled(w, s) && (s.Detail? || s.Report? || s.Fail?)
    ensures Core(Do(w, s))
  {
    match s
    case Detail(q, details) => DetailKeepsCore(w, q, details);
    case Report(q) => ReportKeepsCore(w, q);
    case Fail(q) => FailKeepsCore(w, q);
  }

  lemma StepKeepsCore(w: World, s: Step)
    requires Core(w) && TablesOk(w) && L.Inv(QueryPolicy, w.lim) && Enabled(w, s)
    ensures Core(Do(w, s))
  {
    if s.Tick? {
      TickKeepsCore(w, s.d);
    } else if s.Apply? {
      ApplyKeepsCore(w, s.user, s.act);
    } else if s.Begin? {
      BeginKeepsCore(w, s.q, s.user);
    } else if s.Stamp? || s.Search? || s.ReadTarget? {
      QueryStepKeepsCore(w, s);
    } else if s.Detail? || s.Report? || s.Fail? {
      EndingStepKeepsCore(w, s);
    } else {
      LimiterStepKeepsCore(w, s);
    }
  }

  lemma InitialInv(w: World)
    requires Initial(w)
    ensures Inv(w)
  {
  }

  lemma {:induction false} ReachableInv(trace: seq<World>, i: nat)
    requires IsRun(trace) && i < |trace|
    ensures Inv(trace[i])
  {
    if i == 0 {
      InitialInv(trace[0]);
    } else {
      ReachableInv(trace, i - 1);
      assert FollowsAt(trace, i);
      var s :| Enabled(trace[i - 1], s) && trace[i] == Do(trace[i - 1], s);
      StepKeepsLimiter(trace[i - 1], s);
      StepKeepsTables(trace[i - 1], s);
      StepKeepsCore(trace[i - 1], s);
    }
  }
}
