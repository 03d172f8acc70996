/** In every run, what a disclosure says of the two users' rows and of the distance, besides consent. */
module PresenceGates {
  import opened Wrappers
  import opened Presence
  import opened PresenceRun
  import L = LimiterRun

  /** The target is somebody else, was not hidden when its row was read, and is within both radii. */
  predicate FitsGates(user: string, asker: PrivacySettings, k: Kept) {
    && k.userId != user
    && !k.row.paused && k.row.visibility != "invisible"
    && k.dist <= asker.radiusM as real && k.dist <= k.row.radiusM as real
  }

  predicate QueryFits(q: Query) {
    && (forall i :: 0 <= i < |q.held| ==> FitsGates(q.user, q.row, q.held[i].kept))
    && (q.phase.Pairing? ==> FitsGates(q.user, q.row, q.phase.kept))
    && (q.phase.PairArming? ==> FitsGates(q.user, q.row, q.phase.keptToo))
  }

  predicate DisclosureFits(d: Disclosure) {
    FitsGates(d.entry.requesterId, d.asker, d.kept) && d.entry.targetId == d.kept.userId && d.entry.endpoint == ENDPOINT
  }

  ghost predicate AllFit(w: World) {
    && (forall id :: id in w.queries ==> QueryFits(w.queries[id]))
    && (forall a :: 0 <= a < |w.audit| ==> DisclosureFits(w.audit[a]))
  }

  lemma PutKeepsFit(w: World, w': World, q: nat, query: Query)
    requires AllFit(w) && w'.audit == w.audit && w'.queries == w.queries[q := query] && QueryFits(query)
    ensures AllFit(w')
  {
    forall id | id in w'.queries
      ensures QueryFits(w'.queries[id])
    {
      assert id == q || w'.queries[id] == w.queries[id];
    }
  }

  lemma HoldFits(w: World, query: Query, k: Kept)
    requires QueryFits(query) && FitsGates(query.user, query.row, k)
    ensures QueryFits(Hold(w, query, k))
  {
  }

  lemma ReadTargetFits(w: World, q: nat, blocked: bool, mutual: bool)
    requires AllFit(w) && Enabled(w, ReadTarget(q, blocked, mutual))
    ensures q in Do(w, ReadTarget(q, blocked, mutual)).queries
    ensures QueryFits(Do(w, ReadTarget(q, blocked, mutual)).queries[q])
  {
  }

  lemma ReadTargetKeepsFit(w: World, s: Step)
    requires AllFit(w) && Enabled(w, s) && s.ReadTarget?
    ensures AllFit(Do(w, s))
  {
    ReadTargetFits(w, s.q, s.blocked, s.mutual);
    PutKeepsFit(w, Do(w, s), s.q, Do(w, s).queries[s.q]);
  }

  lemma PairIncrFits(w: World, q: nat)
    requires AllFit(w) && Enabled(w, PairIncr(q))
    ensures AllFit(Do(w, PairIncr(q)))
  {
    var query := w.queries[q];
    var w1 := LimStep(w, L.IncrCall(q, BusyKey(query)));
    HoldFits(w1, query, query.phase.kept);
    PutKeepsFit(w, Do(w, PairIncr(q)), q, Do(w, PairIncr(q)).queries[q]);
  }

  lemma ReportFits(w: World, q: nat)
    requires AllFit(w) && Enabled(w, Report(q))
    ensures AllFit(Do(w, Report(q)))
  {
    var query := w.queries[q];
    var w' := Do(w, Report(q));
    PutKeepsFit(w, w'.(audit := w.audit), q, w'.queries[q]);
    forall a | 0 <= a < |w'.audit|
      ensures DisclosureFits(w'.audit[a])
    {
      if a == |w.audit| {
        assert FitsGates(query.user, query.row, query.held[query.j].kept);
      }
    }
  }

  lemma EarlyStepKeepsFit(w: World, s: Step)
    requires AllFit(w) && Enabled(w, s) && (s.Begin? || s.Stamp? || s.Search? || s.DailyIncr? || s.DailyExpire?)
    ensures AllFit(Do(w, s))
  {
    PutKeepsFit(w, Do(w, s), s.q, Do(w, s).queries[s.q]);
  }

  lemma LateStepKeepsFit(w: World, s: Step)
    requires AllFit(w) && Enabled(w, s) && (s.Detail? || s.Fail? || s.IncrReplyLost? || s.ExpireReplyLost?)
    ensures AllFit(Do(w, s))
  {
    PutKeepsFit(w, Do(w, s), s.q, Do(w, s).queries[s.q]);
  }

  lemma PairExpireFits(w: World, q: nat)
    requires AllFit(w) && Enabled(w, PairExpire(q))
    ensures AllFit(Do(w, PairExpire(q)))
  {
    HoldFits(LimStep(w, L.ExpireCall(q, BusyKey(w.queries[q]))), w.queries[q], w.queries[q].phase.keptToo);
    PutKeepsFit(w, Do(w, PairExpire(q)), q, Do(w, PairExpire(q)).queries[q]);
  }

  lemma StepKeepsFit(w: World, s: Step)
    requires AllFit(w) && Enabled(w, s)
    ensures AllFit(Do(w, s))
  {
    match s
    case Tick(_) =>
    case Apply(_, _) =>
    case Report(q) => ReportFits(w, q);
    case PairIncr(q) => PairIncrFits(w, q);
    case PairExpire(q) => PairExpireFits(w, q);
    case ReadTarget(_, _, _) => ReadTargetKeepsFit(w, s);
    case Begin(_, _) => EarlyStepKeepsFit(w, s);
    case Stamp(_) => EarlyStepKeepsFit(w, s);
    case Search(_, _) => EarlyStepKeepsFit(w, s);
    case DailyIncr(_) => EarlyStepKeepsFit(w, s);
    case DailyExpire(_) => EarlyStepKeepsFit(w, s);
    case Detail(_, _) => LateStepKeepsFit(w, s);
    case Fail(_) => LateStepKeepsFit(w, s);
    case IncrReplyLost(_) => LateStepKeepsFit(w, s);
    case ExpireReplyLost(_) => LateStepKeepsFit(w, s);
  }

  lemma {:induction false} ReachableFits(trace: seq<World>, n: nat)
    requires IsRun(trace) && n < |trace|
    ensures AllFit(trace[n])
  {
    if n > 0 {
      ReachableFits(trace, n - 1);
      assert FollowsAt(trace, n);
      var s :| Enabled(trace[n - 1], s) && trace[n] == Do(trace[n - 1], s);
      StepKeepsFit(trace[n - 1], s);
    }
  }

  /** Nobody is ever disclosed to themself, and whoever is disclosed was shown and within both users' radii by the rows
      the query had read, whatever the index answered; the bucket on record is that of the distance. */
  lemma DisclosuresAreInRange(trace: seq<World>, n: nat, a: nat)
    requires IsRun(trace) && n < |trace| && a < |trace[n].audit|
    ensures var w := trace[n];
            var d := w.audit[a];
            && d.entry.requesterId != d.entry.targetId && d.entry.targetId == d.kept.userId
            && d.kept.seen <= |w.history| && d.askerSeen <= |w.history|
            && var target := RowAfter(w.history[..d.kept.seen], d.entry.targetId);
               var asker := RowAfter(w.history[..d.askerSeen], d.entry.requesterId);
               && !target.paused && target.visibility != "invisible"
               && d.kept.dist <= target.radiusM as real && d.kept.dist <= asker.radiusM as real
               && d.entry.bucket == BucketFor(d.kept.dist) && d.entry.bucket != BucketNone
               && d.entry.endpoint == "ws:/v1/presence/connect"
  {
    ReachableFits(trace, n);
    ReachableInv(trace, n);
    assert DisclosureOk(trace[n], trace[n].audit[a]);
    assert DisclosureFits(trace[n].audit[a]);
  }
}
