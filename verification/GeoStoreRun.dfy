/** Concurrent Upsert, Touch and Remove calls on the presence index, interleaved one Redis command at a time.
    Any command may fail, or take effect and lose its reply; either way the call ends there. */
module GeoStoreRun {
  import opened Wrappers
  import opened RedisGeo
  import GeoStore

  /** A call in flight, at its next command. */
  datatype Call =
    | UpsertGeoAdd(user: string, pos: GeoPosition, detail: Detail, ttl: Ttl)
    | UpsertSet(user: string, detail: Detail, ttl: Ttl)
    | TouchGet(user: string, ttl: Ttl)
    | TouchGeoPos(user: string, ttl: Ttl)
    | TouchExpire(user: string, ttl: Ttl)
    | RemoveZRem(user: string)
    | RemoveDel(user: string)
  {
    predicate Upserts(u: string) {
      (UpsertGeoAdd? || UpsertSet?) && user == u
    }
  }

  datatype State = State(now: int, geo: GeoSet, details: DetailKeys, calls: map<nat, Call>)

  datatype Step =
    | Tick(d: nat)
    | Begin(id: nat, call: Call)
    | Command(id: nat)           // the next command of a call succeeds
    | CommandFails(id: nat)      // it has no effect, and the call returns an error
    | ReplyLost(id: nat)         // it takes effect, and the call returns an error

  predicate First(c: Call) {
    c.UpsertGeoAdd? || c.TouchGet? || c.RemoveZRem?
  }

  predicate Enabled(s: State, step: Step) {
    match step
    case Tick(_) => true
    case Begin(id, call) => id !in s.calls && First(call)
    case Command(id) => id in s.calls
    case CommandFails(id) => id in s.calls
    case ReplyLost(id) => id in s.calls
  }

  function Effect(s: State, c: Call): State {
    match c
    case UpsertGeoAdd(u, pos, _, _) => s.(geo := GeoAdd(s.geo, u, pos))
    case UpsertSet(u, detail, ttl) => s.(details := SetDetail(s.details, u, detail, s.now, ttl))
    case TouchGet(_, _) => s
    case TouchGeoPos(_, _) => s
    case TouchExpire(u, ttl) => s.(details := ExpireDetail(s.details, u, s.now, ttl))
    case RemoveZRem(u) => s.(geo := ZRem(s.geo, u))
    case RemoveDel(u) => s.(details := DelDetail(s.details, u))
  }

  /** What the call does after its command, given what the command found. */
  function Continue(s: State, c: Call): Option<Call> {
    match c
    case UpsertGeoAdd(u, _, detail, ttl) => Some(UpsertSet(u, detail, ttl))
    case TouchGet(u, ttl) => if Present(s.details, u, s.now) then Some(TouchGeoPos(u, ttl)) else None
    case TouchGeoPos(u, ttl) => if u in s.geo then Some(TouchExpire(u, ttl)) else None
    case RemoveZRem(u) => Some(RemoveDel(u))
    case _ => None
  }

  function Do(s: State, step: Step): State
    requires Enabled(s, step)
  {
    match step
    case Tick(d) => s.(now := s.now + d)
    case Begin(id, call) => s.(calls := s.calls[id := call])
    case Command(id) =>
      var next := Continue(s, s.calls[id]);
      Effect(s, s.calls[id]).(calls := if next.Some? then s.calls[id := next.value] else s.calls - {id})
    case CommandFails(id) => s.(calls := s.calls - {id})
    case ReplyLost(id) => Effect(s, s.calls[id]).(calls := s.calls - {id})
  }

  ghost predicate IsRun(trace: seq<State>, steps: seq<Step>) {
    && |trace| == |steps| + 1
    && trace[0].geo == map[] && trace[0].details == map[] && trace[0].calls == map[]
    && forall i :: 0 <= i < |steps| ==> Enabled(trace[i], steps[i]) && trace[i + 1] == Do(trace[i], steps[i])
  }

  predicate Discoverable(s: State, u: string) {
    u in s.geo && Present(s.details, u, s.now)
  }

  /** The step makes a command of call `c` take effect. */
  predicate Executes(s: State, step: Step, c: Call) {
    match step
    case Command(id) => id in s.calls && s.calls[id] == c
    case ReplyLost(id) => id in s.calls && s.calls[id] == c
    case _ => false
  }

  /** Only an Upsert's own GEOADD or SET makes a user discoverable: no Touch, no Remove, no passing of time. */
  lemma OnlyUpsertMakesDiscoverable(s: State, step: Step, u: string)
    requires Enabled(s, step) && !Discoverable(s, u) && Discoverable(Do(s, step), u)
    ensures exists c: Call :: Executes(s, step, c) && c.Upserts(u)
  {
    match step
    case Command(id) => assert Executes(s, step, s.calls[id]);
    case ReplyLost(id) => assert Executes(s, step, s.calls[id]);
    case _ =>
  }

  lemma {:induction false} DiscoveryNeedsAnUpsert(trace: seq<State>, steps: seq<Step>, u: string, i: nat, j: nat)
    requires IsRun(trace, steps) && i <= j <= |steps|
    requires !Discoverable(trace[i], u) && Discoverable(trace[j], u)
    ensures exists k: nat, c: Call :: i <= k < j && Executes(trace[k], steps[k], c) && c.Upserts(u)
  {
    if Discoverable(trace[j - 1], u) {
      DiscoveryNeedsAnUpsert(trace, steps, u, i, j - 1);
    } else {
      OnlyUpsertMakesDiscoverable(trace[j - 1], steps[j - 1], u);
    }
  }

  ghost predicate NoUpsertPending(s: State, u: string) {
    forall id :: id in s.calls ==> !s.calls[id].Upserts(u)
  }

  predicate BeginsUpsert(step: Step, u: string) {
    step.Begin? && step.call.Upserts(u)
  }

  lemma StepKeepsAbsent(s: State, step: Step, u: string)
    requires Enabled(s, step) && !BeginsUpsert(step, u)
    requires NoUpsertPending(s, u) && !Present(s.details, u, s.now)
    ensures NoUpsertPending(Do(s, step), u) && !Present(Do(s, step).details, u, Do(s, step).now)
  {
  }

  /** Once a Remove has completed while no Upsert of the user was pending, the user stays undiscoverable
      until a new Upsert begins, whatever Touch and Remove calls are still in flight. */
  lemma {:induction false} RemovedStaysRemoved(trace: seq<State>, steps: seq<Step>, u: string, i: nat, j: nat, id: nat)
    requires IsRun(trace, steps) && i < j <= |steps|
    requires steps[i] == Command(id) && trace[i].calls[id] == RemoveDel(u)
    requires NoUpsertPending(trace[i], u)
    requires forall k :: i < k < j ==> !BeginsUpsert(steps[k], u)
    ensures !Discoverable(trace[j], u)
    ensures NoUpsertPending(trace[j], u) && !Present(trace[j].details, u, trace[j].now)
  {
    if i + 1 < j {
      RemovedStaysRemoved(trace, steps, u, i, j - 1, id);
      StepKeepsAbsent(trace[j - 1], steps[j - 1], u);
    }
  }

  /** A SET or EXPIRE on the user's detail key, with its TTL. */
  predicate Renews(c: Call, u: string, ttl: Ttl) {
    (c.UpsertSet? || c.TouchExpire?) && c.user == u && c.ttl == ttl
  }

  ghost predicate RenewedAt(trace: seq<State>, steps: seq<Step>, u: string, k: nat, ttl: Ttl) {
    && k < |steps| && k < |trace|
    && exists c: Call :: Executes(trace[k], steps[k], c) && Renews(c, u, ttl)
  }

  lemma StepRenewsOrKeeps(s: State, step: Step, u: string)
    requires Enabled(s, step)
    requires u in Do(s, step).details
    ensures (exists c: Call, ttl: Ttl :: Executes(s, step, c) && Renews(c, u, ttl)
                                        && Do(s, step).details[u].deadline == s.now + ttl)
            || (u in s.details && Do(s, step).details[u].deadline == s.details[u].deadline)
  {
    match step
    case Command(id) =>
      var c := s.calls[id];
      assert Executes(s, step, c);
      if c.UpsertSet? || c.TouchExpire? {
        assert c.user == u ==> Renews(c, u, c.ttl);
      }
    case ReplyLost(id) =>
      var c := s.calls[id];
      assert Executes(s, step, c);
      if c.UpsertSet? || c.TouchExpire? {
        assert c.user == u ==> Renews(c, u, c.ttl);
      }
    case _ =>
  }

  lemma {:induction false} DeadlineComesFromARenewal(trace: seq<State>, steps: seq<Step>, u: string, j: nat)
    returns (k: nat, ttl: Ttl)
    requires IsRun(trace, steps) && j <= |steps| && u in trace[j].details
    ensures k < j && RenewedAt(trace, steps, u, k, ttl)
    ensures trace[j].details[u].deadline == trace[k].now + ttl
  {
    var s, step := trace[j - 1], steps[j - 1];
    StepRenewsOrKeeps(s, step, u);
    if c, t: Ttl :| Executes(s, step, c) && Renews(c, u, t) && trace[j].details[u].deadline == s.now + t {
      k, ttl := j - 1, t;
    } else {
      k, ttl := DeadlineComesFromARenewal(trace, steps, u, j - 1);
    }
  }

  lemma {:induction false} TimeMovesOn(trace: seq<State>, steps: seq<Step>, i: nat, j: nat)
    requires IsRun(trace, steps) && i <= j <= |steps|
    ensures trace[i].now <= trace[j].now
  {
    if i < j {
      TimeMovesOn(trace, steps, i, j - 1);
    }
  }

  /** A user is discoverable only within `ttl` of a SET or EXPIRE on the detail key. */
  lemma DiscoverableOnlyWithinTtl(trace: seq<State>, steps: seq<Step>, u: string, j: nat)
    requires IsRun(trace, steps) && j <= |steps| && Discoverable(trace[j], u)
    ensures exists k: nat, ttl: Ttl ::
              k < j && RenewedAt(trace, steps, u, k, ttl) && trace[k].now <= trace[j].now < trace[k].now + ttl
  {
    var k, ttl := DeadlineComesFromARenewal(trace, steps, u, j);
    TimeMovesOn(trace, steps, k, j);
  }

  // ----- a call that nobody disturbs -----

  /** Call `id` runs to its end with nothing in between; after `left` commands of it, the next one fails, or takes effect
      and loses its reply. */
  function RunAlone(s: State, id: nat, left: nat, lost: bool): State
    decreases left
  {
    if id !in s.calls then s
    else if left == 0 then Do(s, if lost then ReplyLost(id) else CommandFails(id))
    else RunAlone(Do(s, Command(id)), id, left - 1, lost)
  }

  function CommandsBefore(fault: GeoStore.Fault): nat {
    match fault
    case FirstFails => 0
    case SecondFails => 1
    case ThirdFails => 2
    case NoFault => 3
  }

  /** The failure that leaves the same behind as losing the reply of a command: that of the next one. */
  function NextFails(fault: GeoStore.Fault): GeoStore.Fault {
    match fault
    case FirstFails => GeoStore.SecondFails
    case SecondFails => GeoStore.ThirdFails
    case ThirdFails => GeoStore.NoFault
    case NoFault => GeoStore.NoFault
  }

  /** It does to the index exactly what the one-call form of its operation does, whichever command fails or loses its
      reply, and leaves every other call alone. */
  lemma SoloCallIsCall(s: State, id: nat, call: Call, at: GeoStore.Fault, lost: bool)
    requires id !in s.calls && First(call)
    ensures var t := RunAlone(Do(s, Begin(id, call)), id, CommandsBefore(at), lost);
            var fault := if lost then NextFails(at) else at;
            && t.now == s.now && t.calls == s.calls
            && match call
               case UpsertGeoAdd(u, pos, detail, ttl) =>
                 var e := GeoStore.PresenceEntry(u, pos, detail);
                 t.geo == GeoStore.UpsertGeo(s.geo, e, fault)
                 && t.details == GeoStore.UpsertDetails(s.details, e, s.now, ttl, fault)
               case TouchGet(u, ttl) =>
                 t.geo == s.geo && t.details == GeoStore.TouchDetails(s.geo, s.details, u, s.now, ttl, fault)
               case RemoveZRem(u) =>
                 t.geo == GeoStore.RemoveGeo(s.geo, u, fault)
                 && t.details == GeoStore.RemoveDetails(s.details, u, fault)
               case _ => true
  {
    var s0 := Do(s, Begin(id, call));
    var left := CommandsBefore(at);
    assert s0.calls - {id} == s.calls;
    if left > 0 {
      CommandLeavesOthers(s0, id);
      var s1 := Do(s0, Command(id));
      assert RunAlone(s0, id, left, lost) == RunAlone(s1, id, left - 1, lost);
      if left > 1 && id in s1.calls {
        CommandLeavesOthers(s1, id);
        var s2 := Do(s1, Command(id));
        assert RunAlone(s1, id, left - 1, lost) == RunAlone(s2, id, left - 2, lost);
        if left > 2 && id in s2.calls {
          CommandLeavesOthers(s2, id);
          assert RunAlone(s2, id, left - 2, lost) == RunAlone(Do(s2, Command(id)), id, left - 3, lost);
        }
      }
    }
  }

  lemma CommandLeavesOthers(s: State, id: nat)
    requires id in s.calls
    ensures var after := Do(s, Command(id)).calls;
            after - {id} == s.calls - {id} && (id !in after ==> after == s.calls - {id})
  {
  }
}
