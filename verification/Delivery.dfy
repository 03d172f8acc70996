/** The hub and the presence service together: what reaches a connection was disclosed and audited for its user.
    The hub's workers get their answers from queries of the service; both machines move as the scheduler likes. */
module Delivery {
  import opened Wrappers
  import opened Presence
  import opened PresenceSolo
  import H = Hub
  import P = PresenceRun
  import T = PresenceTheorems

  /** `calls` is history: the query that answered each job. */
  datatype State = State(hub: H.State, world: P.World, calls: map<nat, nat>)

  /** A service call that answers with users is the end of a query of its own; one that answers with none may have asked
      no query at all (a heartbeat without a stored position). */
  datatype Step =
    | HubMoves(step: H.Step)
    | WorldMoves(move: P.Step)
    | QueryAnswers(worker: nat, q: nat, users: seq<NearbyResult>)

  predicate AnswersUsers(s: H.Step) {
    s.WorkerMoves? && s.move.Computes? && s.move.outcome.Ok? && s.move.outcome.value != []
  }

  function Answering(s: Step): H.Step
    requires s.QueryAnswers?
  {
    H.WorkerMoves(s.worker, H.Computes(Ok(s.users)))
  }

  /** Query `q` is over, was asked for `user` and found these users in these buckets. */
  predicate Found(w: P.World, q: nat, user: string, users: seq<NearbyResult>) {
    && q in w.queries && w.queries[q].phase.Done? && w.queries[q].user == user
    && w.queries[q].results == Pairs(users)
  }

  predicate Enabled(c: H.Config, s: State, step: Step) {
    match step
    case HubMoves(h) => H.Enabled(c, s.hub, h) && !AnswersUsers(h)
    case WorldMoves(p) => P.Enabled(s.world, p)
    case QueryAnswers(i, q, users) =>
      && H.Enabled(c, s.hub, Answering(step)) && q !in s.calls.Values
      && Found(s.world, q, s.hub.pool.workers[i].job.conn.user, users)
  }

  function Do(c: H.Config, s: State, step: Step): State
    requires Enabled(c, s, step)
  {
    match step
    case HubMoves(h) => s.(hub := H.Do(c, s.hub, h))
    case WorldMoves(p) => s.(world := P.Do(s.world, p))
    case QueryAnswers(i, q, users) =>
      s.(hub := H.Do(c, s.hub, Answering(step)), calls := s.calls[s.hub.pool.workers[i].n := q])
  }

  ghost predicate IsRun(c: H.Config, trace: seq<State>) {
    && trace != [] && trace[0].hub == H.New(c) && P.Initial(trace[0].world) && trace[0].calls == map[]
    && forall i :: 0 < i < |trace| ==> FollowsAt(c, trace, i)
  }

  ghost predicate FollowsAt(c: H.Config, trace: seq<State>, i: int)
    requires 0 < i < |trace|
  {
    Next(c, trace[i - 1], trace[i])
  }

  ghost predicate Next(c: H.Config, s: State, t: State) {
    exists step :: Enabled(c, s, step) && t == Do(c, s, step)
  }

  // ----- the invariant -----

  /** An outcome with users is the end of the query that answered the job. */
  predicate ServedOk(s: State, n: nat)
    requires n < |s.hub.log|
  {
    var e := s.hub.log[n];
    e.outcome.Some? && e.outcome.value.Ok? && e.outcome.value.value != [] ==>
      n in s.calls && Found(s.world, s.calls[n], e.job.conn.user, e.outcome.value.value)
  }

  predicate CallsOk(s: State) {
    && (forall n :: 0 <= n < |s.hub.log| ==> ServedOk(s, n))
    && (forall n :: n in s.calls ==> n < |s.hub.log| && s.hub.log[n].outcome.Some?)
    && (forall m, n :: m in s.calls && n in s.calls && s.calls[m] == s.calls[n] ==> m == n)
  }

  ghost predicate Inv(c: H.Config, s: State) {
    H.Inv(c, s.hub) && P.Inv(s.world) && CallsOk(s)
  }

  /** What a hub step does to the entry of an earlier job: nothing to its job, and to its outcome only as a worker's
      answer says. */
  lemma StepKeepsEntry(c: H.Config, s: H.State, step: H.Step, n: nat)
    requires H.Inv(c, s) && H.Enabled(c, s, step) && n < |s.log|
    ensures var t := H.Do(c, s, step);
            && n < |t.log| && t.log[n].job == s.log[n].job
            && if Answered(s, step, n) then s.log[n].outcome.None? && t.log[n].outcome == Some(step.move.outcome)
               else t.log[n].outcome == s.log[n].outcome
  {
    if step.WorkerMoves? && H.Busy(s.pool.workers[step.i]) {
      var w := s.pool.workers[step.i];
      assert H.HeldBy(s.pool.workers, w.n, step.i);
    }
  }

  /** This step is the service's answer to job `n`. */
  predicate Answered(s: H.State, step: H.Step, n: nat) {
    && step.WorkerMoves? && step.move.Computes? && step.i < |s.pool.workers|
    && s.pool.workers[step.i].Processing? && s.pool.workers[step.i].n == n
  }

  lemma NewEntryIsOpen(c: H.Config, s: H.State, step: H.Step)
    requires H.Enabled(c, s, step)
    ensures var t := H.Do(c, s, step);
            |s.log| <= |t.log| <= |s.log| + 1 && (|t.log| > |s.log| ==> t.log[|s.log|].outcome.None?)
  {
  }

  lemma HubMoveKeepsCalls(c: H.Config, s: State, h: H.Step)
    requires Inv(c, s) && Enabled(c, s, HubMoves(h))
    ensures CallsOk(Do(c, s, HubMoves(h)))
  {
    var t := Do(c, s, HubMoves(h));
    NewEntryIsOpen(c, s.hub, h);
    forall n | 0 <= n < |t.hub.log|
      ensures ServedOk(t, n) && (n in s.calls ==> t.hub.log[n].outcome.Some?)
    {
      if n < |s.hub.log| {
        StepKeepsEntry(c, s.hub, h, n);
        assert ServedOk(s, n);
      }
    }
  }

  lemma WorldMoveKeepsCalls(c: H.Config, s: State, p: P.Step)
    requires CallsOk(s) && Enabled(c, s, WorldMoves(p))
    ensures CallsOk(Do(c, s, WorldMoves(p)))
  {
    var t := Do(c, s, WorldMoves(p));
    forall n | 0 <= n < |t.hub.log|
      ensures ServedOk(t, n)
    {
      assert ServedOk(s, n);
      if n in s.calls && s.calls[n] in s.world.queries && s.world.queries[s.calls[n]].phase.Done? {
        T.StepLeavesAnswers(s.world, p, s.calls[n]);
      }
    }
  }

  /** The answer goes to the worker's own job, which had none so far. */
  lemma AnswerKeepsEntry(c: H.Config, s: State, step: Step, n: nat)
    requires H.Inv(c, s.hub) && step.QueryAnswers? && Enabled(c, s, step) && n < |s.hub.log| && ServedOk(s, n)
    ensures var t := Do(c, s, step);
            && n < |t.hub.log| && ServedOk(t, n)
            && (n == s.hub.pool.workers[step.worker].n ==> s.hub.log[n].outcome.None? && t.hub.log[n].outcome.Some?)
            && (s.hub.log[n].outcome.Some? ==> t.hub.log[n].outcome.Some?)
  {
    var w := s.hub.pool.workers[step.worker];
    assert H.HeldBy(s.hub.pool.workers, w.n, step.worker);
    StepKeepsEntry(c, s.hub, Answering(step), n);
  }

  lemma OneMoreCall(calls: map<nat, nat>, m: nat, q: nat)
    requires forall a, b :: a in calls && b in calls && calls[a] == calls[b] ==> a == b
    requires q !in calls.Values
    ensures var more := calls[m := q]; forall a, b :: a in more && b in more && more[a] == more[b] ==> a == b
  {
    assert forall a :: a in calls ==> calls[a] in calls.Values;
  }

  lemma AnswerIsForAnEntry(c: H.Config, s: State, step: Step)
    requires H.Inv(c, s.hub) && step.QueryAnswers? && Enabled(c, s, step)
    ensures s.hub.pool.workers[step.worker].n < |s.hub.log| == |Do(c, s, step).hub.log|
  {
    assert H.HeldBy(s.hub.pool.workers, s.hub.pool.workers[step.worker].n, step.worker);
  }

  lemma AnswerKeepsCalls(c: H.Config, s: State, step: Step)
    requires H.Inv(c, s.hub) && CallsOk(s) && step.QueryAnswers? && Enabled(c, s, step)
    ensures CallsOk(Do(c, s, step))
  {
    var t := Do(c, s, step);
    AnswerIsForAnEntry(c, s, step);
    OneMoreCall(s.calls, s.hub.pool.workers[step.worker].n, step.q);
    forall n | 0 <= n < |t.hub.log|
      ensures ServedOk(t, n) && (n in t.calls ==> t.hub.log[n].outcome.Some?)
    {
      AnswerKeepsEntry(c, s, step, n);
    }
  }

  lemma StepKeepsWorld(w: P.World, p: P.Step)
    requires P.Inv(w) && P.Enabled(w, p)
    ensures P.Inv(P.Do(w, p))
  {
    P.StepKeepsLimiter(w, p);
    P.StepKeepsTables(w, p);
    P.StepKeepsCore(w, p);
  }

  lemma StepKeepsInv(c: H.Config, s: State, step: Step)
    requires Inv(c, s) && Enabled(c, s, step)
    ensures Inv(c, Do(c, s, step))
  {
    match step
    case HubMoves(h) =>
      H.StepKeepsInv(c, s.hub, h);
      HubMoveKeepsCalls(c, s, h);
    case WorldMoves(p) =>
      StepKeepsWorld(s.world, p);
      WorldMoveKeepsCalls(c, s, p);
    case QueryAnswers(_, _, _) =>
      H.StepKeepsInv(c, s.hub, Answering(step));
      AnswerKeepsCalls(c, s, step);
  }

  lemma {:induction false} ReachableInv(c: H.Config, trace: seq<State>, i: nat)
    requires IsRun(c, trace) && i < |trace|
    ensures Inv(c, trace[i])
  {
    if i == 0 {
      H.NewIsOk(c);
      P.InitialInv(trace[0].world);
    } else {
      ReachableInv(c, trace, i - 1);
      assert FollowsAt(c, trace, i);
      var step :| Enabled(c, trace[i - 1], step) && trace[i] == Do(c, trace[i - 1], step);
      StepKeepsInv(c, trace[i - 1], step);
    }
  }

  // ----- end to end -----

  /** Every user in every frame that was sent for a job has an audit entry, in the same bucket and place, under the user
      of the connection it was sent to: the users are exactly what the log holds for one query, and no two jobs share
      that query. */
  lemma SentUsersAreAudited(c: H.Config, trace: seq<State>, i: nat, n: nat)
    requires IsRun(c, trace) && i < |trace| && n < |trace[i].hub.log|
    requires trace[i].hub.log[n].sends != [] && trace[i].hub.log[n].sends[0].frame.users != []
    ensures var s, sent := trace[i], trace[i].hub.log[n].sends[0];
            && n in s.calls && s.calls[n] in s.world.queries
            && s.world.queries[s.calls[n]].user == sent.conn.user
            && P.AuditOf(s.world.audit, s.calls[n]) == Pairs(sent.frame.users)
            && forall m :: m in s.calls && s.calls[m] == s.calls[n] ==> m == n
  {
    ReachableInv(c, trace, i);
    var s := trace[i];
    SendsAreRight(c, s.hub, n);
    assert ServedOk(s, n);
    assert P.QueryOk(s.world, s.calls[n], s.world.queries[s.calls[n]]);
  }

  /** What was sent for a job is the frame for its outcome. */
  lemma SendsAreRight(c: H.Config, s: H.State, n: nat)
    requires H.Inv(c, s) && n < |s.log| && s.log[n].sends != []
    ensures H.SentRight(s.log[n])
  {
    if H.IsHeld(s.pool.workers, n) {
      var k: nat :| H.HeldBy(s.pool.workers, n, k);
      assert H.AtStage(s.log[n], s.pool.workers[k]);
    }
  }
}
