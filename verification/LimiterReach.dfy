/** What runs of the limiter can reach: when a key admits again, how it jams, and that the window bound is attained. */
module LimiterReach {
  import opened Wrappers
  import opened RedisCounters
  import opened LimiterRun
  import Runs

  // ----- reaching one state from another -----

  ghost function Steps(p: Policy): (State, State) -> bool {
    (s, t) => Next(p, s, t)
  }

  ghost predicate Leads(p: Policy, s: State, t: State) {
    Runs.Leads(Steps(p), s, t)
  }

  ghost predicate Reachable(p: Policy, s: State) {
    exists start: State :: start.keys == map[] && Leads(p, start, s)
  }

  lemma LeadsOn(p: Policy, s: State, t: State, step: Step)
    requires Leads(p, s, t) && Enabled(t, step)
    ensures Leads(p, s, Do(p, t, step))
  {
    Runs.LeadsOn(Steps(p), s, t, Do(p, t, step));
  }

  /** A path of the limiter, step by step. */
  lemma PathTo(p: Policy, s: State, t: State) returns (path: seq<State>)
    requires Leads(p, s, t)
    ensures path != [] && path[0] == s && path[|path| - 1] == t
    ensures forall i :: 0 < i < |path| ==> FollowsAt(p, path, i)
  {
    path :| Runs.IsPath(Steps(p), path, s, t);
    forall i | 0 < i < |path|
      ensures FollowsAt(p, path, i)
    {
      assert Runs.FollowsAt(Steps(p), path, i);
    }
  }

  lemma ReachableIsOk(p: Policy, s: State)
    requires Positive(p) && Reachable(p, s)
    ensures Inv(p, s)
  {
    var start: State :| start.keys == map[] && Leads(p, start, s);
    var path := PathTo(p, start, s);
    ReachableInv(p, path, |path| - 1);
  }

  // ----- when a key admits again -----

  predicate AdmitsMore(s: State, t: State, key: string) {
    |Get(s, key).log| < |Get(t, key).log|
  }

  /** A waiting caller's EXPIRE admits it. */
  lemma WaitingCallerIsAdmitted(p: Policy, s: State, from: State, key: string, c: nat) returns (t: State)
    requires Leads(p, from, s) && c in Get(s, key).waiting && Get(s, key).gens != [] && p.limit(key) >= 1
    ensures Leads(p, from, t) && AdmitsMore(s, t, key)
  {
    t := Do(p, s, ExpireCall(c, key));
    LeadsOn(p, from, s, ExpireCall(c, key));
  }

  /** A key that is not there admits its next caller by INCR and EXPIRE. */
  lemma AbsentKeyAdmits(p: Policy, s: State, from: State, key: string) returns (t: State)
    requires Leads(p, from, s) && !Alive(Get(s, key).counter, s.now) && p.limit(key) >= 1
    ensures Leads(p, from, t) && AdmitsMore(s, t, key)
  {
    var s1 := Do(p, s, IncrCall(0, key));
    LeadsOn(p, from, s, IncrCall(0, key));
    assert Get(s1, key).log == Get(s, key).log;
    t := WaitingCallerIsAdmitted(p, s1, from, key, 0);
  }

  /** A key with a deadline is not there once it has passed. */
  lemma ExpiringKeyAdmits(p: Policy, s: State, from: State, key: string) returns (t: State)
    requires Leads(p, from, s) && p.limit(key) >= 1
    requires Get(s, key).counter.Some? && Get(s, key).counter.value.deadline.Some?
    ensures Leads(p, from, t) && AdmitsMore(s, t, key)
  {
    var due := Get(s, key).counter.value.deadline.value;
    var d: nat := if due > s.now then due - s.now else 0;
    var s1 := Do(p, s, Tick(d));
    LeadsOn(p, from, s, Tick(d));
    assert Get(s1, key) == Get(s, key);
    t := AbsentKeyAdmits(p, s1, from, key);
  }

  /** A key without deadline and with hits to spare admits its next caller at once. */
  lemma SpareHitAdmits(p: Policy, s: State, from: State, key: string) returns (t: State)
    requires Leads(p, from, s) && Get(s, key).counter.Some? && Get(s, key).counter.value.deadline.None?
    requires 1 <= Get(s, key).counter.value.n < p.limit(key)
    ensures Leads(p, from, t) && AdmitsMore(s, t, key)
  {
    t := Do(p, s, IncrCall(0, key));
    LeadsOn(p, from, s, IncrCall(0, key));
    assert Alive(Get(s, key).counter, s.now);
  }

  lemma UnjammedKeyAdmits(p: Policy, s: State, key: string) returns (t: State)
    requires KeyInv(Get(s, key), p.limit(key), p.window(key), s.now) && p.limit(key) >= 1
    requires !Jammed(Get(s, key), p.limit(key))
    ensures Leads(p, s, t) && AdmitsMore(s, t, key)
  {
    var k := Get(s, key);
    Runs.LeadsToItself(Steps(p), s);
    if c :| c in k.waiting {
      t := WaitingCallerIsAdmitted(p, s, s, key, c);
    } else if k.counter.None? {
      t := AbsentKeyAdmits(p, s, s, key);
    } else if k.counter.value.deadline.Some? {
      t := ExpiringKeyAdmits(p, s, s, key);
    } else {
      assert k.waiting == {};
      t := SpareHitAdmits(p, s, s, key);
    }
  }

  lemma {:induction false} JammedAlongPath(p: Policy, path: seq<State>, key: string, i: nat)
    requires path != [] && (forall k :: 0 < k < |path| ==> FollowsAt(p, path, k)) && i < |path|
    requires Jammed(Get(path[0], key), p.limit(key))
    ensures Jammed(Get(path[i], key), p.limit(key)) && Get(path[i], key).log == Get(path[0], key).log
  {
    if i > 0 {
      JammedAlongPath(p, path, key, i - 1);
      assert FollowsAt(p, path, i);
      NextKeepsJammed(p, path[i - 1], path[i], key);
    }
  }

  /** In every reachable state a key with a positive limit can admit another call, in some continuation, if and only if
      it is not jammed: nothing else is for ever, and being jammed is. */
  lemma AdmitsAgainUnlessJammed(p: Policy, s: State, key: string)
    requires Positive(p) && Reachable(p, s) && p.limit(key) >= 1
    ensures (exists t :: Leads(p, s, t) && AdmitsMore(s, t, key)) <==> !Jammed(Get(s, key), p.limit(key))
  {
    ReachableIsOk(p, s);
    GetKeyInv(p, s, key);
    if Jammed(Get(s, key), p.limit(key)) {
      forall t | Leads(p, s, t)
        ensures !AdmitsMore(s, t, key)
      {
        var path := PathTo(p, s, t);
        JammedAlongPath(p, path, key, |path| - 1);
      }
    } else {
      var t := UnjammedKeyAdmits(p, s, key);
    }
  }

  // ----- how a key jams -----

  const Nothing := State(0, map[])

  lemma NothingIsReachable(p: Policy)
    ensures Reachable(p, Nothing) && Leads(p, Nothing, Nothing)
  {
    Runs.LeadsToItself(Steps(p), Nothing);
  }

  /** Further hits without a reply use a counter without deadline up. */
  lemma {:induction false} HitsUseUp(p: Policy, s: State, key: string, hits: nat) returns (t: State)
    requires Leads(p, Nothing, s) && Get(s, key).waiting == {}
    requires Get(s, key).counter.Some? && Get(s, key).counter.value.deadline.None? && Get(s, key).counter.value.n >= 1
    ensures Leads(p, Nothing, t) && Get(t, key).waiting == {}
    ensures Get(t, key).counter == Some(Counter(Get(s, key).counter.value.n + hits, None))
    decreases hits
  {
    if hits == 0 {
      t := s;
    } else {
      var s1 := Do(p, s, IncrReplyLost(key));
      LeadsOn(p, Nothing, s, IncrReplyLost(key));
      assert Get(s1, key) == AfterIncr(Get(s, key), s.now) && Alive(Get(s, key).counter, s.now);
      t := HitsUseUp(p, s1, key, hits - 1);
    }
  }

  /** From the start, one caller that dies between INCR and EXPIRE, and as many further hits as the limit has left,
      jam a key. */
  lemma JamIsReachable(p: Policy, key: string)
    requires p.limit(key) >= 1
    ensures exists s :: Reachable(p, s) && Jammed(Get(s, key), p.limit(key))
  {
    NothingIsReachable(p);
    var s1 := Do(p, Nothing, IncrCall(0, key));
    LeadsOn(p, Nothing, Nothing, IncrCall(0, key));
    assert Get(s1, key) == Key(Some(Counter(1, None)), [Gen(0, None)], [], {0});
    var s2 := Do(p, s1, Crash(0, key));
    LeadsOn(p, Nothing, s1, Crash(0, key));
    assert Get(s2, key).waiting == {};
    var t := HitsUseUp(p, s2, key, p.limit(key) - 1);
    assert Nothing.keys == map[];
  }

  // ----- the window bound is attained -----

  lemma WithinSnoc(log: seq<Admission>, a: Admission, from: int, until: int)
    ensures Within(log + [a], from, until) == Within(log, from, until) + if from <= a.at < until then 1 else 0
  {
    assert (log + [a])[..|log|] == log;
  }

  /** Callers that come while a key is alive and below its limit are admitted at once, one after the other. */
  lemma {:induction false} FollowersAreAdmitted(p: Policy, s: State, key: string, n: nat, from: int, until: int)
    returns (t: State)
    requires Leads(p, Nothing, s) && Alive(Get(s, key).counter, s.now)
    requires 1 <= Get(s, key).counter.value.n && Get(s, key).counter.value.n + n <= p.limit(key)
    ensures Leads(p, Nothing, t) && t.now == s.now
    ensures Get(t, key).counter == Some(Get(s, key).counter.value.(n := Get(s, key).counter.value.n + n))
    ensures Within(Get(t, key).log, from, until)
            == Within(Get(s, key).log, from, until) + if from <= s.now < until then n else 0
    decreases n
  {
    if n == 0 {
      t := s;
    } else {
      var s1 := Do(p, s, IncrCall(0, key));
      LeadsOn(p, Nothing, s, IncrCall(0, key));
      var a := Admission(if Get(s, key).gens == [] then 0 else |Get(s, key).gens| - 1, false, 0, s.now, s.now);
      assert Get(s1, key).log == Get(s, key).log + [a];
      WithinSnoc(Get(s, key).log, a, from, until);
      t := FollowersAreAdmitted(p, s1, key, n - 1, from, until);
    }
  }

  lemma FirstWaits(p: Policy, s: State, key: string) returns (s1: State)
    requires Leads(p, Nothing, s) && !Alive(Get(s, key).counter, s.now)
    ensures Leads(p, Nothing, s1) && s1.now == s.now
    ensures var k, k1 := Get(s, key), Get(s1, key);
            && k1.counter == Some(Counter(1, None)) && k1.log == k.log && 0 in k1.waiting
            && k1.gens == k.gens + [Gen(s.now, None)]
  {
    s1 := Do(p, s, IncrCall(0, key));
    LeadsOn(p, Nothing, s, IncrCall(0, key));
  }

  /** A new life: the first caller is admitted, and the counter is armed. */
  lemma FirstIsAdmitted(p: Policy, s: State, key: string, from: int, until: int) returns (t: State)
    requires Leads(p, Nothing, s) && !Alive(Get(s, key).counter, s.now) && p.limit(key) >= 1 && p.window(key) >= 1
    ensures Leads(p, Nothing, t) && t.now == s.now
    ensures Get(t, key).counter == Some(Counter(1, Some(s.now + p.window(key))))
    ensures Within(Get(t, key).log, from, until)
            == Within(Get(s, key).log, from, until) + if from <= s.now < until then 1 else 0
  {
    var s1 := FirstWaits(p, s, key);
    t := Do(p, s1, ExpireCall(0, key));
    LeadsOn(p, Nothing, s1, ExpireCall(0, key));
    var a := Admission(|Get(s, key).gens|, true, 0, s.now, s.now);
    assert Get(t, key).log == Get(s, key).log + [a];
    WithinSnoc(Get(s, key).log, a, from, until);
  }

  /** The bound of `WindowHoldsLessThanTwiceLimit` is attained for every limit and every window of more than one tick:
      a first caller early, the others just before the key expires, and the whole limit just after. */
  lemma WindowBoundIsAttained(p: Policy, key: string) returns (s: State, from: int)
    requires p.limit(key) >= 1 && p.window(key) >= 2
    ensures Reachable(p, s) && Within(Get(s, key).log, from, from + p.window(key)) == 2 * p.limit(key) - 1
  {
    var limit, window := p.limit(key), p.window(key);
    from := window - 1;
    NothingIsReachable(p);
    var s1 := FirstIsAdmitted(p, Nothing, key, from, from + window);
    var s2 := Do(p, s1, Tick(window - 1));
    LeadsOn(p, Nothing, s1, Tick(window - 1));
    assert Get(s2, key) == Get(s1, key);
    var s3 := FollowersAreAdmitted(p, s2, key, limit - 1, from, from + window);
    var s4 := Do(p, s3, Tick(1));
    LeadsOn(p, Nothing, s3, Tick(1));
    assert Get(s4, key) == Get(s3, key);
    var s5 := FirstIsAdmitted(p, s4, key, from, from + window);
    s := FollowersAreAdmitted(p, s5, key, limit - 1, from, from + window);
    assert Nothing.keys == map[];
  }
}
