/** Any number of callers of the limiter, interleaved command by command, with lost replies and crashes.
    A key's `gens` and `log` are history: every life of the key, and every call that was let through. */
module LimiterRun {
  import opened Wrappers
  import opened RedisCounters
  import RateLimiter

  /** The limit and window under which a key is always called. */
  datatype Policy = Policy(limit: string -> int, window: string -> int)

  ghost predicate Positive(p: Policy) {
    forall k :: p.window(k) > 0
  }

  /** One life of a key: created by an INCR, given a deadline by the EXPIRE of its first caller. */
  datatype Gen = Gen(start: int, armed: Option<int>)

  /** `first` marks the call that created the generation; `at` is the instant of its INCR,
      `answered` the instant from which the caller knows it is admitted. */
  datatype Admission = Admission(gen: nat, first: bool, caller: nat, at: int, answered: int)

  /** `waiting` holds the callers whose INCR returned 1 and whose EXPIRE is still to come. */
  datatype Key = Key(counter: Option<Counter>, gens: seq<Gen>, log: seq<Admission>, waiting: set<nat>)

  datatype State = State(now: int, keys: map<string, Key>)

  datatype Step =
    | Tick(d: nat)
    | IncrCall(caller: nat, key: string)
    | IncrReplyLost(key: string)
    | ExpireCall(caller: nat, key: string)
    | ExpireReplyLost(caller: nat, key: string)
    | Crash(caller: nat, key: string)

  const Fresh := Key(None, [], [], {})

  function Get(s: State, key: string): Key {
    if key in s.keys then s.keys[key] else Fresh
  }

  function Born(k: Key, now: int): seq<Gen> {
    if Alive(k.counter, now) then k.gens else k.gens + [Gen(now, None)]
  }

  function AfterIncr(k: Key, now: int): Key {
    k.(counter := Some(IncrKey(k.counter, now)), gens := Born(k, now))
  }

  function AfterExpire(k: Key, now: int, window: int): Key {
    k.(counter := ExpireKey(k.counter, now, window),
       gens := if k.gens == [] then [] else k.gens[|k.gens| - 1 := Gen(k.gens[|k.gens| - 1].start, Some(now))])
  }

  function Admit(k: Key, first: bool, caller: nat, at: int, now: int): Key {
    k.(log := k.log + [Admission(if k.gens == [] then 0 else |k.gens| - 1, first, caller, at, now)])
  }

  function IncrBy(k: Key, caller: nat, limit: int, now: int): Key {
    var k1 := AfterIncr(k, now);
    var n := k1.counter.value.n;
    if n == 1 then k1.(waiting := k1.waiting + {caller})
    else if n <= limit then Admit(k1, false, caller, now, now)
    else k1
  }

  function ExpireBy(k: Key, caller: nat, limit: int, window: int, now: int): Key {
    var k1 := AfterExpire(k, now, window).(waiting := k.waiting - {caller});
    if 1 <= limit && k.gens != [] then Admit(k1, true, caller, k.gens[|k.gens| - 1].start, now) else k1
  }

  predicate Enabled(s: State, step: Step) {
    match step
    case ExpireCall(c, key) => c in Get(s, key).waiting
    case ExpireReplyLost(c, key) => c in Get(s, key).waiting
    case Crash(c, key) => c in Get(s, key).waiting
    case _ => true
  }

  function Do(p: Policy, s: State, step: Step): State {
    match step
    case Tick(d) => s.(now := s.now + d)
    case IncrCall(c, key) => Put(s, key, IncrBy(Get(s, key), c, p.limit(key), s.now))
    case IncrReplyLost(key) => Put(s, key, AfterIncr(Get(s, key), s.now))
    case ExpireCall(c, key) => Put(s, key, ExpireBy(Get(s, key), c, p.limit(key), p.window(key), s.now))
    case ExpireReplyLost(c, key) =>
      Put(s, key, AfterExpire(Get(s, key), s.now, p.window(key)).(waiting := Get(s, key).waiting - {c}))
    case Crash(c, key) => Put(s, key, Get(s, key).(waiting := Get(s, key).waiting - {c}))
  }

  function Put(s: State, key: string, k: Key): State {
    s.(keys := s.keys[key := k])
  }

  /** `trace` is an execution: it starts with nothing stored, and each state follows from the one before. */
  ghost predicate IsRun(p: Policy, trace: seq<State>) {
    && trace != []
    && trace[0].keys == map[]
    && forall i :: 0 < i < |trace| ==> FollowsAt(p, trace, i)
  }

  ghost predicate FollowsAt(p: Policy, trace: seq<State>, i: int)
    requires 0 < i < |trace|
  {
    Next(p, trace[i - 1], trace[i])
  }

  ghost predicate Next(p: Policy, s: State, t: State) {
    exists step :: Enabled(s, step) && t == Do(p, s, step)
  }

  // ----- the invariant, key by key -----

  function Count(log: seq<Admission>, gen: nat, first: bool): nat {
    if log == [] then 0
    else Count(log[..|log| - 1], gen, first)
         + if log[|log| - 1].gen == gen && log[|log| - 1].first == first then 1 else 0
  }

  function Ceiling(limit: int): nat {
    if limit < 0 then 0 else limit
  }

  predicate GensOk(gs: seq<Gen>, window: int, now: int) {
    && (forall i :: 0 <= i < |gs| ==>
          gs[i].start <= now && (gs[i].armed.Some? ==> gs[i].start <= gs[i].armed.value <= now))
    && (forall i, j :: 0 <= i < j < |gs| ==>
          gs[i].armed.Some? && gs[i].armed.value + window <= gs[j].start)
  }

  predicate CounterOk(k: Key, window: int) {
    && (k.counter.None? <==> k.gens == [])
    && (k.counter.Some? ==>
          var last := k.gens[|k.gens| - 1];
          && k.counter.value.n >= 1
          && k.counter.value.deadline == (if last.armed.Some? then Some(last.armed.value + window) else None))
  }

  predicate AdmissionOk(k: Key, a: Admission, limit: int, window: int, now: int) {
    && a.gen < |k.gens|
    && var g := k.gens[a.gen];
    && g.start <= a.at <= a.answered <= now
    && (g.armed.Some? ==> a.at < g.armed.value + window)
    && (a.first ==> g.armed == Some(a.answered) && g.start == a.at)
    && (if a.first then 1 <= limit else 2 <= limit)
  }

  predicate LogOk(k: Key, limit: int, window: int, now: int) {
    && (forall i :: 0 <= i < |k.log| ==> AdmissionOk(k, k.log[i], limit, window, now))
    && (forall i, j :: 0 <= i < j < |k.log| ==> k.log[i].gen <= k.log[j].gen)
  }

  ghost predicate CountsOk(k: Key, limit: int) {
    && (forall g: nat :: Count(k.log, g, true) <= 1 && Count(k.log, g, false) <= Ceiling(limit - 1))
    && (forall g: nat :: g >= |k.gens| ==> Count(k.log, g, true) == Count(k.log, g, false) == 0)
    && (k.gens != [] ==> k.counter.Some? && Count(k.log, |k.gens| - 1, false) + 1 <= k.counter.value.n)
    && (k.waiting != {} ==>
          k.gens != [] && k.gens[|k.gens| - 1].armed.None? && Count(k.log, |k.gens| - 1, true) == 0)
    && (forall c, d :: c in k.waiting && d in k.waiting ==> c == d)
  }

  ghost predicate KeyInv(k: Key, limit: int, window: int, now: int) {
    GensOk(k.gens, window, now) && CounterOk(k, window) && LogOk(k, limit, window, now) && CountsOk(k, limit)
  }

  ghost predicate Inv(p: Policy, s: State) {
    forall key :: key in s.keys ==> KeyInv(s.keys[key], p.limit(key), p.window(key), s.now)
  }

  lemma CountAppend(log: seq<Admission>, a: Admission, gen: nat, first: bool)
    ensures Count(log + [a], gen, first)
         == Count(log, gen, first) + if a.gen == gen && a.first == first then 1 else 0
  {
    assert (log + [a])[..|log + [a]| - 1] == log;
  }

  lemma AdmitKeepsLogOk(k: Key, a: Admission, limit: int, window: int, now: int)
    requires LogOk(k, limit, window, now) && AdmissionOk(k, a, limit, window, now)
    requires a.gen == |k.gens| - 1
    ensures LogOk(k.(log := k.log + [a]), limit, window, now)
  {
    var t := k.(log := k.log + [a]);
    forall i | 0 <= i < |t.log|
      ensures AdmissionOk(t, t.log[i], limit, window, now)
    {
      assert i < |k.log| ==> AdmissionOk(k, k.log[i], limit, window, now);
    }
  }

  lemma AdmitKeepsCountsOk(k: Key, a: Admission, limit: int)
    requires CountsOk(k, limit) && k.gens != [] && a.gen == |k.gens| - 1
    requires a.first ==> k.waiting == {} && Count(k.log, a.gen, true) == 0
    requires !a.first ==> Count(k.log, a.gen, false) + 2 <= k.counter.value.n <= limit
    ensures CountsOk(k.(log := k.log + [a]), limit)
  {
    forall g: nat, first
      ensures Count(k.log + [a], g, first)
           == Count(k.log, g, first) + if a.gen == g && a.first == first then 1 else 0
    {
      CountAppend(k.log, a, g, first);
    }
  }

  lemma BirthKeepsGensOk(gs: seq<Gen>, window: int, now: int)
    requires GensOk(gs, window, now) && window > 0
    requires gs != [] ==> gs[|gs| - 1].armed.Some? && gs[|gs| - 1].armed.value + window <= now
    ensures GensOk(gs + [Gen(now, None)], window, now)
  {
  }

  lemma BirthKeepsCountsOk(k: Key, waiting: set<nat>, limit: int, now: int)
    requires CountsOk(k, limit) && k.waiting == {}
    requires forall c, d :: c in waiting && d in waiting ==> c == d
    ensures CountsOk(k.(counter := Some(Counter(1, None)), gens := k.gens + [Gen(now, None)],
                        waiting := waiting), limit)
  {
    assert Count(k.log, |k.gens|, true) == Count(k.log, |k.gens|, false) == 0;
  }

  /** An INCR that creates the key finds nobody waiting; its caller may start waiting, or lose the reply. */
  lemma BirthKeepsKeyInv(k: Key, waiting: set<nat>, limit: int, window: int, now: int)
    requires KeyInv(k, limit, window, now) && window > 0 && !Alive(k.counter, now)
    requires forall c, d :: c in waiting && d in waiting ==> c == d
    ensures k.waiting == {}
    ensures KeyInv(AfterIncr(k, now).(waiting := waiting), limit, window, now)
  {
    assert k.waiting == {};
    BirthKeepsGensOk(k.gens, window, now);
    BirthKeepsCountsOk(k, waiting, limit, now);
    var k1 := k.(counter := Some(Counter(1, None)), gens := k.gens + [Gen(now, None)], waiting := waiting);
    assert LogOk(k1, limit, window, now) by {
      forall i | 0 <= i < |k1.log|
        ensures AdmissionOk(k1, k1.log[i], limit, window, now)
      {
        assert AdmissionOk(k, k.log[i], limit, window, now);
      }
    }
    assert AfterIncr(k, now).(waiting := waiting) == k1;
  }

  lemma AfterIncrKeepsKeyInv(k: Key, limit: int, window: int, now: int)
    requires KeyInv(k, limit, window, now) && window > 0
    ensures KeyInv(AfterIncr(k, now), limit, window, now)
  {
    if Alive(k.counter, now) {
      assert forall i :: 0 <= i < |k.log| ==> AdmissionOk(k, k.log[i], limit, window, now);
    } else {
      BirthKeepsKeyInv(k, {}, limit, window, now);
    }
  }

  lemma AdmitKeepsKeyInv(k: Key, a: Admission, limit: int, window: int, now: int)
    requires KeyInv(k, limit, window, now) && AdmissionOk(k, a, limit, window, now) && a.gen == |k.gens| - 1
    requires a.first ==> k.waiting == {} && Count(k.log, a.gen, true) == 0
    requires !a.first ==> Count(k.log, a.gen, false) + 2 <= k.counter.value.n <= limit
    ensures KeyInv(k.(log := k.log + [a]), limit, window, now)
  {
    AdmitKeepsLogOk(k, a, limit, window, now);
    AdmitKeepsCountsOk(k, a, limit);
  }

  /** The one more hit of an INCR on a live key leaves room for its caller in the counts. */
  lemma LaterCallerHasRoom(k: Key, limit: int, window: int, now: int)
    requires CounterOk(k, window) && CountsOk(k, limit) && Alive(k.counter, now)
    ensures var k1 := AfterIncr(k, now);
            k1.gens == k.gens != [] && k1.counter.Some? && k1.counter.value.n == k.counter.value.n + 1
            && Count(k1.log, |k1.gens| - 1, false) + 2 <= k1.counter.value.n
  {
  }

  lemma LaterCallerAdmitted(k: Key, caller: nat, limit: int, window: int, now: int)
    requires KeyInv(k, limit, window, now) && window > 0
    requires Alive(k.counter, now) && k.counter.value.n + 1 <= limit
    ensures KeyInv(Admit(AfterIncr(k, now), false, caller, now, now), limit, window, now)
  {
    var k1 := AfterIncr(k, now);
    AfterIncrKeepsKeyInv(k, limit, window, now);
    LaterCallerHasRoom(k, limit, window, now);
    AdmitKeepsKeyInv(k1, Admission(|k1.gens| - 1, false, caller, now, now), limit, window, now);
  }

  lemma IncrByKeepsKeyInv(k: Key, caller: nat, limit: int, window: int, now: int)
    requires KeyInv(k, limit, window, now) && window > 0
    ensures KeyInv(IncrBy(k, caller, limit, now), limit, window, now)
  {
    var n := IncrKey(k.counter, now).n;
    if n == 1 {
      BirthKeepsKeyInv(k, {caller}, limit, window, now);
    } else if n <= limit {
      LaterCallerAdmitted(k, caller, limit, window, now);
    } else {
      AfterIncrKeepsKeyInv(k, limit, window, now);
    }
  }

  lemma ArmingKeepsLogOk(k: Key, limit: int, window: int, now: int)
    requires LogOk(k, limit, window, now) && window > 0
    requires k.gens != [] && k.gens[|k.gens| - 1].armed.None?
    ensures LogOk(AfterExpire(k, now, window), limit, window, now)
  {
    var k1 := AfterExpire(k, now, window);
    forall i | 0 <= i < |k1.log|
      ensures AdmissionOk(k1, k1.log[i], limit, window, now)
    {
      assert AdmissionOk(k, k.log[i], limit, window, now);
    }
  }

  lemma ArmingKeepsCountsOk(k: Key, caller: nat, limit: int, window: int, now: int)
    requires CountsOk(k, limit) && caller in k.waiting && k.counter.Some?
    ensures CountsOk(AfterExpire(k, now, window).(waiting := k.waiting - {caller}), limit)
    ensures k.waiting - {caller} == {}
  {
    assert k.waiting - {caller} == {};
  }

  lemma ArmingKeepsGensOk(k: Key, limit: int, window: int, now: int)
    requires GensOk(k.gens, window, now) && CounterOk(k, window) && k.gens != [] && window > 0
    requires k.gens[|k.gens| - 1].armed.None?
    ensures GensOk(AfterExpire(k, now, window).gens, window, now) && CounterOk(AfterExpire(k, now, window), window)
  {
  }

  lemma WaitingChangesNoLog(k: Key, waiting: set<nat>, limit: int, window: int, now: int)
    requires LogOk(k, limit, window, now)
    ensures LogOk(k.(waiting := waiting), limit, window, now)
  {
    assert forall i :: 0 <= i < |k.log| ==> AdmissionOk(k, k.log[i], limit, window, now);
  }

  lemma ArmingKeepsKeyInv(k: Key, caller: nat, limit: int, window: int, now: int)
    requires KeyInv(k, limit, window, now) && window > 0 && caller in k.waiting
    ensures KeyInv(AfterExpire(k, now, window).(waiting := k.waiting - {caller}), limit, window, now)
  {
    ArmingKeepsGensOk(k, limit, window, now);
    ArmingKeepsLogOk(k, limit, window, now);
    ArmingKeepsCountsOk(k, caller, limit, window, now);
    WaitingChangesNoLog(AfterExpire(k, now, window), k.waiting - {caller}, limit, window, now);
  }

  /** The first caller's admission, once its EXPIRE has taken effect. */
  lemma FirstCallerIsOk(k: Key, caller: nat, limit: int, window: int, now: int)
    requires GensOk(k.gens, window, now) && CountsOk(k, limit) && window > 0 && caller in k.waiting && 1 <= limit
    ensures k.gens != []
    ensures var k1 := AfterExpire(k, now, window).(waiting := k.waiting - {caller});
            var last := |k.gens| - 1;
            && AdmissionOk(k1, Admission(last, true, caller, k.gens[last].start, now), limit, window, now)
            && k1.waiting == {} && Count(k1.log, last, true) == 0 && |k1.gens| == |k.gens|
  {
    assert k.waiting - {caller} == {};
  }

  lemma ExpireByKeepsKeyInv(k: Key, caller: nat, limit: int, window: int, now: int)
    requires KeyInv(k, limit, window, now) && window > 0 && caller in k.waiting
    ensures KeyInv(ExpireBy(k, caller, limit, window, now), limit, window, now)
  {
    ArmingKeepsKeyInv(k, caller, limit, window, now);
    var k1 := AfterExpire(k, now, window).(waiting := k.waiting - {caller});
    if 1 <= limit {
      FirstCallerIsOk(k, caller, limit, window, now);
      var last := |k.gens| - 1;
      AdmitKeepsKeyInv(k1, Admission(last, true, caller, k.gens[last].start, now), limit, window, now);
    }
  }

  lemma TickKeepsKeyInv(k: Key, limit: int, window: int, now: int, later: int)
    requires KeyInv(k, limit, window, now) && now <= later
    ensures KeyInv(k, limit, window, later)
  {
    assert forall i :: 0 <= i < |k.log| ==> AdmissionOk(k, k.log[i], limit, window, now);
  }

  lemma CrashKeepsKeyInv(k: Key, caller: nat, limit: int, window: int, now: int)
    requires KeyInv(k, limit, window, now)
    ensures KeyInv(k.(waiting := k.waiting - {caller}), limit, window, now)
  {
    assert forall i :: 0 <= i < |k.log| ==> AdmissionOk(k, k.log[i], limit, window, now);
  }

  lemma TickKeepsInv(p: Policy, s: State, d: nat)
    requires Inv(p, s)
    ensures Inv(p, Do(p, s, Tick(d)))
  {
    forall key | key in s.keys
      ensures KeyInv(s.keys[key], p.limit(key), p.window(key), s.now + d)
    {
      TickKeepsKeyInv(s.keys[key], p.limit(key), p.window(key), s.now, s.now + d);
    }
  }

  lemma FreshKeyInv(limit: int, window: int, now: int)
    ensures KeyInv(Fresh, limit, window, now)
  {
  }

  lemma StepTouchesOneKey(p: Policy, s: State, step: Step)
    requires !step.Tick?
    ensures var t := Do(p, s, step);
            && t.now == s.now && t.keys.Keys == s.keys.Keys + {step.key}
            && forall other :: other in t.keys && other != step.key ==> other in s.keys && t.keys[other] == s.keys[other]
  {
  }

  lemma GetKeyInv(p: Policy, s: State, key: string)
    requires Inv(p, s)
    ensures KeyInv(Get(s, key), p.limit(key), p.window(key), s.now)
  {
    FreshKeyInv(p.limit(key), p.window(key), s.now);
  }

  lemma StepKeepsInv(p: Policy, s: State, step: Step)
    requires Positive(p) && Inv(p, s) && Enabled(s, step)
    ensures Inv(p, Do(p, s, step))
  {
    if step.Tick? {
      TickKeepsInv(p, s, step.d);
    } else {
      GetKeyInv(p, s, step.key);
      KeyStepKeepsKeyInv(p, s, step);
      StepTouchesOneKey(p, s, step);
    }
  }

  lemma KeyStepKeepsKeyInv(p: Policy, s: State, step: Step)
    requires Positive(p) && !step.Tick? && Enabled(s, step)
    requires KeyInv(Get(s, step.key), p.limit(step.key), p.window(step.key), s.now)
    ensures KeyInv(Get(Do(p, s, step), step.key), p.limit(step.key), p.window(step.key), s.now)
  {
    var key, k := step.key, Get(s, step.key);
    var limit, window := p.limit(key), p.window(key);
    match step
    case IncrCall(c, _) => IncrByKeepsKeyInv(k, c, limit, window, s.now);
    case IncrReplyLost(_) => AfterIncrKeepsKeyInv(k, limit, window, s.now);
    case ExpireCall(c, _) => ExpireByKeepsKeyInv(k, c, limit, window, s.now);
    case ExpireReplyLost(c, _) => ArmingKeepsKeyInv(k, c, limit, window, s.now);
    case Crash(c, _) => CrashKeepsKeyInv(k, c, limit, window, s.now);
  }

  lemma {:induction false} ReachableInv(p: Policy, trace: seq<State>, i: nat)
    requires Positive(p) && IsRun(p, trace) && i < |trace|
    ensures Inv(p, trace[i])
  {
    if i > 0 {
      ReachableInv(p, trace, i - 1);
      assert FollowsAt(p, trace, i);
      var step :| Enabled(trace[i - 1], step) && trace[i] == Do(p, trace[i - 1], step);
      StepKeepsInv(p, trace[i - 1], step);
    }
  }

  lemma ReachableKeyInv(p: Policy, trace: seq<State>, i: nat, key: string)
    requires Positive(p) && IsRun(p, trace) && i < |trace|
    ensures KeyInv(Get(trace[i], key), p.limit(key), p.window(key), trace[i].now)
  {
    ReachableInv(p, trace, i);
    GetKeyInv(p, trace[i], key);
  }

  // ----- what the limiter promises -----

  function Total(log: seq<Admission>, gen: nat): nat {
    Count(log, gen, true) + Count(log, gen, false)
  }

  lemma {:induction false} NoFirstIn(log: seq<Admission>, gen: nat)
    requires forall i :: 0 <= i < |log| ==> !log[i].first
    ensures Count(log, gen, true) == 0
  {
    if log != [] {
      NoFirstIn(log[..|log| - 1], gen);
    }
  }

  lemma TotalBound(k: Key, limit: int, window: int, now: int, gen: nat)
    requires KeyInv(k, limit, window, now)
    ensures Total(k.log, gen) <= Ceiling(limit)
  {
    if limit < 1 {
      assert forall i :: 0 <= i < |k.log| ==> AdmissionOk(k, k.log[i], limit, window, now);
      NoFirstIn(k.log, gen);
    }
  }

  /** Each life of a key lets through at most `limit` calls. */
  lemma GenerationAdmitsAtMostLimit(p: Policy, trace: seq<State>, i: nat, key: string, gen: nat)
    requires Positive(p) && IsRun(p, trace) && i < |trace|
    ensures Total(Get(trace[i], key).log, gen) <= Ceiling(p.limit(key))
  {
    ReachableKeyInv(p, trace, i, key);
    TotalBound(Get(trace[i], key), p.limit(key), p.window(key), trace[i].now, gen);
  }

  /** A key is only born again a full window after the EXPIRE of its previous life. */
  lemma GenerationsAreAWindowApart(p: Policy, trace: seq<State>, i: nat, key: string, g: nat, h: nat)
    requires Positive(p) && IsRun(p, trace) && i < |trace|
    requires g < h < |Get(trace[i], key).gens|
    ensures var gens := Get(trace[i], key).gens;
            gens[g].start + p.window(key) <= gens[h].start
            && gens[g].armed.Some? && gens[g].armed.value + p.window(key) <= gens[h].start
  {
    ReachableInv(p, trace, i);
  }

  function Within(log: seq<Admission>, from: int, until: int): nat {
    if log == [] then 0
    else Within(log[..|log| - 1], from, until)
         + if from <= log[|log| - 1].at < until then 1 else 0
  }

  lemma {:induction false} WithinOneGeneration(log: seq<Admission>, from: int, until: int, g: nat)
    requires forall i :: 0 <= i < |log| && from <= log[i].at < until ==> log[i].gen == g
    ensures Within(log, from, until) <= Total(log, g)
  {
    if log != [] {
      WithinOneGeneration(log[..|log| - 1], from, until, g);
    }
  }

  lemma {:induction false} WithinTwoGenerations(log: seq<Admission>, from: int, until: int, g: nat, h: nat)
    requires g != h
    requires forall i :: 0 <= i < |log| && from <= log[i].at < until ==>
               (log[i].gen == g && !log[i].first) || log[i].gen == h
    ensures Within(log, from, until) <= Count(log, g, false) + Total(log, h)
  {
    if log != [] {
      WithinTwoGenerations(log[..|log| - 1], from, until, g, h);
    }
  }

  /** An admission earlier than `until` and one not before `until - window` in a later life:
      the earlier one is not the first of its life, and the lives are neighbours. */
  lemma TwoLivesInAWindow(k: Key, limit: int, window: int, now: int, from: int, i: int, j: int)
    requires KeyInv(k, limit, window, now)
    requires 0 <= i < |k.log| && 0 <= j < |k.log| && k.log[i].gen < k.log[j].gen
    requires from <= k.log[i].at && k.log[j].at < from + window
    ensures !k.log[i].first && k.log[i].gen + 1 == k.log[j].gen
  {
    assert AdmissionOk(k, k.log[i], limit, window, now);
    assert AdmissionOk(k, k.log[j], limit, window, now);
    var g, h := k.log[i].gen, k.log[j].gen;
    assert k.gens[g].armed.value + window <= k.gens[g + 1].start;
  }

  lemma NeighbouringLives(k: Key, limit: int, window: int, now: int, from: int, lo: int, hi: int, n: int)
    requires KeyInv(k, limit, window, now)
    requires 0 <= lo < |k.log| && 0 <= hi < |k.log| && 0 <= n < |k.log| && k.log[lo].gen < k.log[hi].gen
    requires from <= k.log[lo].at < from + window && from <= k.log[hi].at < from + window
    requires from <= k.log[n].at < from + window
    ensures (k.log[n].gen == k.log[lo].gen && !k.log[n].first) || k.log[n].gen == k.log[hi].gen
  {
    TwoLivesInAWindow(k, limit, window, now, from, lo, hi);
    if k.log[n].gen < k.log[hi].gen {
      TwoLivesInAWindow(k, limit, window, now, from, n, hi);
    } else if k.log[n].gen > k.log[hi].gen {
      TwoLivesInAWindow(k, limit, window, now, from, lo, n);
    }
  }

  predicate Inside(k: Key, from: int, window: int, i: int) {
    0 <= i < |k.log| && from <= k.log[i].at < from + window
  }

  lemma TwoLivesBound(k: Key, limit: int, window: int, now: int, from: int, lo: int, hi: int)
    requires KeyInv(k, limit, window, now)
    requires Inside(k, from, window, lo) && Inside(k, from, window, hi) && k.log[lo].gen < k.log[hi].gen
    ensures Within(k.log, from, from + window) <= Ceiling(limit - 1) + Ceiling(limit)
  {
    forall n | 0 <= n < |k.log| && from <= k.log[n].at < from + window
      ensures (k.log[n].gen == k.log[lo].gen && !k.log[n].first) || k.log[n].gen == k.log[hi].gen
    {
      NeighbouringLives(k, limit, window, now, from, lo, hi, n);
    }
    WithinTwoGenerations(k.log, from, from + window, k.log[lo].gen, k.log[hi].gen);
    TotalBound(k, limit, window, now, k.log[hi].gen);
  }

  lemma KeyWindowBound(k: Key, limit: int, window: int, now: int, from: int)
    requires KeyInv(k, limit, window, now)
    ensures Within(k.log, from, from + window) <= (if limit < 1 then 0 else 2 * limit - 1)
  {
    if lo, hi :| Inside(k, from, window, lo) && Inside(k, from, window, hi) && k.log[lo].gen < k.log[hi].gen {
      TwoLivesBound(k, limit, window, now, from, lo, hi);
    } else if j :| Inside(k, from, window, j) {
      forall n | 0 <= n < |k.log| && from <= k.log[n].at < from + window
        ensures k.log[n].gen == k.log[j].gen
      {
        assert Inside(k, from, window, n);
      }
      WithinOneGeneration(k.log, from, from + window, k.log[j].gen);
      TotalBound(k, limit, window, now, k.log[j].gen);
    } else {
      assert forall i :: 0 <= i < |k.log| && from <= k.log[i].at < from + window ==> Inside(k, from, window, i);
      WithinNothing(k.log, from, from + window);
    }
  }

  /** Any interval as long as the window holds at most `2 * limit - 1` admissions: one better than
      the "about twice the limit" the implementation allows itself. */
  lemma WindowHoldsLessThanTwiceLimit(p: Policy, trace: seq<State>, i: nat, key: string, from: int)
    requires Positive(p) && IsRun(p, trace) && i < |trace|
    ensures Within(Get(trace[i], key).log, from, from + p.window(key))
         <= (if p.limit(key) < 1 then 0 else 2 * p.limit(key) - 1)
  {
    ReachableKeyInv(p, trace, i, key);
    KeyWindowBound(Get(trace[i], key), p.limit(key), p.window(key), trace[i].now, from);
  }

  lemma {:induction false} WithinNothing(log: seq<Admission>, from: int, until: int)
    requires forall i :: 0 <= i < |log| ==> !(from <= log[i].at < until)
    ensures Within(log, from, until) == 0
  {
    if log != [] {
      WithinNothing(log[..|log| - 1], from, until);
    }
  }

  lemma {:induction false} CountsTwo(log: seq<Admission>, i: nat, j: nat)
    requires i < j < |log| && log[i].gen == log[j].gen && log[i].first && log[j].first
    ensures Count(log, log[i].gen, true) >= 2
  {
    if j == |log| - 1 {
      CountsOne(log[..j], i);
    } else {
      CountsTwo(log[..|log| - 1], i, j);
    }
  }

  lemma {:induction false} CountsOne(log: seq<Admission>, i: nat)
    requires i < |log| && log[i].first
    ensures Count(log, log[i].gen, true) >= 1
  {
    if i < |log| - 1 {
      CountsOne(log[..|log| - 1], i);
    }
  }

  /** With a limit of one, the next admission's INCR comes a full window after the previous one's answer. */
  lemma SpacedByKeyInv(k: Key, window: int, now: int, i: nat, j: nat)
    requires KeyInv(k, 1, window, now) && i < j < |k.log|
    ensures k.log[i].answered + window <= k.log[j].at
  {
    assert AdmissionOk(k, k.log[i], 1, window, now);
    assert AdmissionOk(k, k.log[j], 1, window, now);
    if k.log[i].gen == k.log[j].gen {
      CountsTwo(k.log, i, j);
    }
  }

  lemma LimitOneSpacesAdmissions(p: Policy, trace: seq<State>, n: nat, key: string, i: nat, j: nat)
    requires Positive(p) && IsRun(p, trace) && n < |trace| && p.limit(key) == 1
    requires i < j < |Get(trace[n], key).log|
    ensures var log := Get(trace[n], key).log;
            log[i].at <= log[i].answered && log[i].answered + p.window(key) <= log[j].at
  {
    ReachableInv(p, trace, n);
    var k := Get(trace[n], key);
    SpacedByKeyInv(k, p.window(key), trace[n].now, i, j);
    assert AdmissionOk(k, k.log[i], 1, p.window(key), trace[n].now);
  }

  /** A key that lost its EXPIRE and is used up lets nobody through, ever: nothing re-arms it. */
  predicate Jammed(k: Key, limit: int) {
    k.counter.Some? && k.counter.value.deadline.None? && k.counter.value.n >= limit && k.counter.value.n >= 1
    && k.waiting == {}
  }

  lemma StepKeepsJammed(p: Policy, s: State, step: Step, key: string)
    requires Enabled(s, step) && Jammed(Get(s, key), p.limit(key))
    ensures Jammed(Get(Do(p, s, step), key), p.limit(key))
    ensures Get(Do(p, s, step), key).log == Get(s, key).log
  {
    if !step.Tick? {
      if step.key == key {
        assert step.IncrCall? || step.IncrReplyLost?;
        JammedKeyRefuses(Get(s, key), p.limit(key), s.now);
      } else {
        StepTouchesOneKey(p, s, step);
      }
    }
  }

  lemma JammedKeyRefuses(k: Key, limit: int, now: int)
    requires Jammed(k, limit)
    ensures Jammed(AfterIncr(k, now), limit) && AfterIncr(k, now).log == k.log
    ensures forall caller :: IncrBy(k, caller, limit, now) == AfterIncr(k, now)
  {
    assert Alive(k.counter, now);
  }

  lemma NextKeepsJammed(p: Policy, s: State, t: State, key: string)
    requires Next(p, s, t) && Jammed(Get(s, key), p.limit(key))
    ensures Jammed(Get(t, key), p.limit(key)) && Get(t, key).log == Get(s, key).log
  {
    var step :| Enabled(s, step) && t == Do(p, s, step);
    StepKeepsJammed(p, s, step, key);
  }

  lemma {:induction false} JammedForever(p: Policy, trace: seq<State>, key: string, i: nat, j: nat)
    requires IsRun(p, trace) && i <= j < |trace| && Jammed(Get(trace[i], key), p.limit(key))
    ensures Jammed(Get(trace[j], key), p.limit(key))
    ensures Get(trace[j], key).log == Get(trace[i], key).log
  {
    if i < j {
      JammedForever(p, trace, key, i, j - 1);
      assert FollowsAt(p, trace, j);
      NextKeepsJammed(p, trace[j - 1], trace[j], key);
    }
  }

  /** One caller alone, with no failure, does exactly what `RateLimiter.AllowCounters` and
      `AllowVerdict` say of the whole call. */
  lemma SoloCallIsAllow(p: Policy, s: State, c: nat, key: string, m: Counters)
    requires KeyInv(Get(s, key), p.limit(key), p.window(key), s.now)
    requires Lookup(m, key) == Get(s, key).counter && c !in Get(s, key).waiting
    ensures var s1 := Do(p, s, IncrCall(c, key));
            var s2 := if c in Get(s1, key).waiting then Do(p, s1, ExpireCall(c, key)) else s1;
            var v := RateLimiter.AllowVerdict(m, s.now, key, p.limit(key), p.window(key), RateLimiter.NoFault);
            && Get(s2, key).counter
               == Lookup(RateLimiter.AllowCounters(m, s.now, key, p.window(key), RateLimiter.NoFault), key)
            && v.Ok?
            && |Get(s2, key).log| == |Get(s, key).log| + (if v.value.allowed then 1 else 0)
  {
    var k := Get(s, key);
    var m1 := Incr(m, key, s.now);
    assert Lookup(m1, key) == Some(IncrKey(k.counter, s.now));
    assert Get(Do(p, s, IncrCall(c, key)), key) == IncrBy(k, c, p.limit(key), s.now);
  }
}
