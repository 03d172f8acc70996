/** The ingest and fan-out pipeline as a protocol: a bounded channel, a fixed worker pool counted by a WaitGroup,
    a registry of connections and a graceful shutdown. Every channel, counter or registry access is one step, taken
    by whichever goroutine the scheduler picks; what the service answers and whether a connection takes a frame are
    free. Nothing is enqueued, and Shutdown is not called again, once Shutdown has closed the channel. */
module Hub {
  import opened Wrappers
  import opened Presence

  datatype JobKind = Update | Heartbeat
  datatype Conn = Conn(user: string, serial: nat)
  datatype Job = Job(kind: JobKind, conn: Conn, lat: real, lon: real, trackId: string)

  /** How the service call for a job ended. */
  type Outcome = Result<seq<NearbyResult>, PresenceError>

  predicate IsConsentError(o: Outcome) {
    o.Err? && (o.error.ConsentRequired? || o.error.ConsentExpired?)
  }

  /** What is sent for an outcome: the results, the way out for a user without consent, nothing on other errors. */
  function FrameFor(o: Outcome): Option<Frame> {
    match o
    case Ok(users) => Some(Frame(FRAME_NEARBY_UPDATE, users, ""))
    case Err(ConsentRequired) => Some(Frame(FRAME_DRAIN, [], "consent_required"))
    case Err(ConsentExpired) => Some(Frame(FRAME_DRAIN, [], "consent_expired"))
    case Err(_) => None
  }

  /** `n` is the place of the worker's job among the jobs that left the channel. */
  datatype Worker =
    | NotStarted
    | Idle                                                       // at its select
    | Processing(job: Job, n: nat)
    | Delivering(job: Job, n: nat, outcome: Outcome)             // about to Send
    | Counting(job: Job, n: nat, outcome: Outcome, sent: bool)   // Send returned, the counter is next
    | Closing(job: Job, n: nat, outcome: Outcome)
    | Exited

  datatype Sent = Sent(conn: Conn, frame: Frame, ok: bool)

  /** What was done for one job that left the channel: how its service call ended, the Sends made for it, and how
      often its connection was closed. */
  datatype Served = Served(job: Job, outcome: Option<Outcome>, sends: seq<Sent>, closes: nat)

  datatype Config = Config(capacity: nat, workers: nat)

  /** `attempts`, `accepted` and `dequeued` are history. */
  datatype Ingest = Ingest(
    queue: seq<Job>, closed: bool, dropped: nat,
    attempts: nat, accepted: seq<Job>, dequeued: seq<Job>)

  /** `doneBy` counts each worker's Done calls; `finished` and `sawEmpty` (some worker left because the channel was
      closed and empty) are history. */
  datatype Pool = Pool(
    workers: seq<Worker>, wg: int, cancelled: bool,
    doneBy: seq<nat>, finished: multiset<Job>, sawEmpty: bool)

  /** The metrics, the deliver calls of callers other than workers that have yet to count, and, as history, how many
      Sends succeeded and failed. */
  datatype Fanout = Fanout(
    framesSent: nat, fanoutDropped: nat, othersSent: nat, othersDropped: nat, sendsOk: nat, sendsFailed: nat)

  datatype Phase = Serving | Broadcasting(left: set<Conn>) | Waiting | ReturnedNil | ReturnedError

  /** `snapshot` and `offered` are history: who was registered when Shutdown began, and who was offered the drain frame
      since. */
  datatype Drain = Drain(phase: Phase, conns: map<string, Conn>, snapshot: set<Conn>, offered: set<Conn>)

  /** `log` is history: what was done for each job that left the channel. */
  datatype State = State(ingest: Ingest, pool: Pool, fanout: Fanout, drain: Drain, log: seq<Served>)

  function New(c: Config): State {
    State(Ingest([], false, 0, 0, [], []),
          Pool(seq(c.workers, _ => NotStarted), c.workers, false, seq(c.workers, _ => 0), multiset{}, false),
          Fanout(0, 0, 0, 0, 0, 0),
          Drain(Serving, map[], {}, {}),
          [])
  }

  datatype Step =
    | Enqueue(job: Job)                // never blocks: accepted if there is room, dropped and counted otherwise
    | Handoff(job: Job, worker: nat)   // straight to a worker waiting at an empty channel
    | WorkerMoves(i: nat, move: Move)
    | OtherSends(ok: bool)             // SendResync's delivery
    | OtherCounts(ok: bool)
    | Register(conn: Conn)
    | Unregister(conn: Conn)
    | ContextCancelled
    | ShutdownMoves(shut: ShutdownMove)

  datatype Move = Starts | Receives | FindsClosed | SeesCancel | Computes(outcome: Outcome) | Sends(ok: bool) | Counts
                | Closes

  datatype ShutdownMove = Snapshots | Broadcasts(conn: Conn, ok: bool) | ClosesIngest | ReturnsNil | ReturnsError

  // ----- workers -----

  predicate Busy(w: Worker) {
    w.Processing? || w.Delivering? || w.Counting? || w.Closing?
  }

  predicate MoveEnabled(g: Ingest, cancelled: bool, w: Worker, move: Move) {
    match move
    case Starts => w.NotStarted?
    case Receives => w.Idle? && g.queue != []
    case FindsClosed => w.Idle? && g.closed && g.queue == []
    case SeesCancel => w.Idle? && cancelled
    case Computes(_) => w.Processing?
    case Sends(_) => w.Delivering?
    case Counts => w.Counting?
    case Closes => w.Closing?
  }

  predicate WorkerEnabled(g: Ingest, p: Pool, i: nat, move: Move) {
    i < |p.workers| && i < |p.doneBy| && MoveEnabled(g, p.cancelled, p.workers[i], move)
  }

  /** The worker's own next state. */
  function NextWorker(g: Ingest, w: Worker, move: Move): Worker
    requires move.Receives? ==> g.queue != []
    requires move.Computes? ==> w.Processing?
    requires move.Sends? ==> w.Delivering?
    requires move.Counts? ==> w.Counting?
  {
    match move
    case Starts => Idle
    case Receives => Processing(g.queue[0], |g.dequeued|)
    case FindsClosed => Exited
    case SeesCancel => Exited
    case Computes(outcome) => if FrameFor(outcome).Some? then Delivering(w.job, w.n, outcome) else Idle
    case Sends(ok) => Counting(w.job, w.n, w.outcome, ok)
    case Counts => if IsConsentError(w.outcome) then Closing(w.job, w.n, w.outcome) else Idle
    case Closes => Idle
  }

  function IngestAfter(g: Ingest, move: Move): Ingest
    requires move.Receives? ==> g.queue != []
  {
    if move.Receives? then g.(queue := g.queue[1..], dequeued := g.dequeued + [g.queue[0]]) else g
  }

  function PoolAfter(g: Ingest, p: Pool, i: nat, move: Move): Pool
    requires WorkerEnabled(g, p, i, move)
  {
    var w := NextWorker(g, p.workers[i], move);
    Pool(p.workers[i := w],
         if w.Exited? then p.wg - 1 else p.wg,
         p.cancelled,
         if w.Exited? then p.doneBy[i := p.doneBy[i] + 1] else p.doneBy,
         if w.Idle? then p.finished + JobOf(p.workers[i]) else p.finished,
         p.sawEmpty || move.FindsClosed?)
  }

  function FanoutAfter(f: Fanout, w: Worker, move: Move): Fanout {
    if move.Sends? then
      (if move.ok then f.(sendsOk := f.sendsOk + 1) else f.(sendsFailed := f.sendsFailed + 1))
    else if move.Counts? && w.Counting? then
      (if w.sent then f.(framesSent := f.framesSent + 1) else f.(fanoutDropped := f.fanoutDropped + 1))
    else f
  }

  function SentBy(w: Worker, ok: bool): seq<Sent> {
    if w.Delivering? && FrameFor(w.outcome).Some? then [Sent(w.job.conn, FrameFor(w.outcome).value, ok)] else []
  }

  /** What a move adds to what was done for the worker's job. */
  function ServedAfter(s: Served, w: Worker, move: Move): Served {
    match move
    case Computes(outcome) => s.(outcome := Some(outcome))
    case Sends(ok) => s.(sends := s.sends + SentBy(w, ok))
    case Closes => s.(closes := s.closes + 1)
    case _ => s
  }

  function LogAfter(g: Ingest, log: seq<Served>, w: Worker, move: Move): seq<Served>
    requires move.Receives? ==> g.queue != []
  {
    if move.Receives? then log + [Served(g.queue[0], None, [], 0)]
    else if Busy(w) && w.n < |log| then log[w.n := ServedAfter(log[w.n], w, move)]
    else log
  }

  // ----- everybody else -----

  function Offer(c: Config, g: Ingest, job: Job): Ingest {
    if |g.queue| < c.capacity then
      g.(queue := g.queue + [job], accepted := g.accepted + [job], attempts := g.attempts + 1)
    else g.(dropped := g.dropped + 1, attempts := g.attempts + 1)
  }

  predicate ShutdownEnabled(s: State, move: ShutdownMove) {
    match move
    case Snapshots => s.drain.phase.Serving?
    case Broadcasts(conn, _) => s.drain.phase.Broadcasting? && conn in s.drain.phase.left
    case ClosesIngest => s.drain.phase.Broadcasting? && s.drain.phase.left == {}
    case ReturnsNil => s.drain.phase.Waiting? && s.pool.wg == 0
    case ReturnsError => s.drain.phase.Waiting?
  }

  function OtherSent(f: Fanout, ok: bool): Fanout {
    if ok then f.(sendsOk := f.sendsOk + 1, othersSent := f.othersSent + 1)
    else f.(sendsFailed := f.sendsFailed + 1, othersDropped := f.othersDropped + 1)
  }

  function ShutdownAfter(d: Drain, move: ShutdownMove): Drain
    requires move.Broadcasts? ==> d.phase.Broadcasting?
  {
    match move
    case Snapshots => d.(phase := Broadcasting(d.conns.Values), snapshot := d.conns.Values)
    case Broadcasts(conn, _) => d.(phase := Broadcasting(d.phase.left - {conn}), offered := d.offered + {conn})
    case ClosesIngest => d.(phase := Waiting)
    case ReturnsNil => d.(phase := ReturnedNil)
    case ReturnsError => d.(phase := ReturnedError)
  }

  function Unregistered(conns: map<string, Conn>, conn: Conn): map<string, Conn> {
    if conn.user in conns && conns[conn.user] == conn then conns - {conn.user} else conns
  }

  predicate Enabled(c: Config, s: State, step: Step) {
    match step
    case Enqueue(_) => !s.ingest.closed
    case Handoff(_, i) =>
      !s.ingest.closed && s.ingest.queue == [] && i < |s.pool.workers| && s.pool.workers[i].Idle?
    case WorkerMoves(i, move) => WorkerEnabled(s.ingest, s.pool, i, move)
    case OtherSends(_) => true
    case OtherCounts(ok) => if ok then s.fanout.othersSent > 0 else s.fanout.othersDropped > 0
    case Register(_) => true
    case Unregister(_) => true
    case ContextCancelled => true
    case ShutdownMoves(move) => ShutdownEnabled(s, move)
  }

  function Do(c: Config, s: State, step: Step): State
    requires Enabled(c, s, step)
  {
    match step
    case Enqueue(job) => s.(ingest := Offer(c, s.ingest, job))
    case Handoff(job, i) =>
      s.(ingest := s.ingest.(attempts := s.ingest.attempts + 1, accepted := s.ingest.accepted + [job],
                             dequeued := s.ingest.dequeued + [job]),
         pool := s.pool.(workers := s.pool.workers[i := Processing(job, |s.ingest.dequeued|)]),
         log := s.log + [Served(job, None, [], 0)])
    case WorkerMoves(i, move) =>
      State(IngestAfter(s.ingest, move), PoolAfter(s.ingest, s.pool, i, move),
            FanoutAfter(s.fanout, s.pool.workers[i], move), s.drain,
            LogAfter(s.ingest, s.log, s.pool.workers[i], move))
    case OtherSends(ok) => s.(fanout := OtherSent(s.fanout, ok))
    case OtherCounts(ok) =>
      s.(fanout := if ok then s.fanout.(othersSent := s.fanout.othersSent - 1, framesSent := s.fanout.framesSent + 1)
                   else s.fanout.(othersDropped := s.fanout.othersDropped - 1,
                                  fanoutDropped := s.fanout.fanoutDropped + 1))
    case Register(conn) => s.(drain := s.drain.(conns := s.drain.conns[conn.user := conn]))
    case Unregister(conn) => s.(drain := s.drain.(conns := Unregistered(s.drain.conns, conn)))
    case ContextCancelled => s.(pool := s.pool.(cancelled := true))
    case ShutdownMoves(move) =>
      State(if move.ClosesIngest? then s.ingest.(closed := true) else s.ingest,
            s.pool,
            if move.Broadcasts? then OtherSent(s.fanout, move.ok) else s.fanout,
            ShutdownAfter(s.drain, move), s.log)
  }

  ghost predicate IsRun(c: Config, trace: seq<State>) {
    && trace != [] && trace[0] == New(c)
    && forall i :: 0 < i < |trace| ==> FollowsAt(c, trace, i)
  }

  ghost predicate FollowsAt(c: Config, trace: seq<State>, i: int)
    requires 0 < i < |trace|
  {
    Next(c, trace[i - 1], trace[i])
  }

  ghost predicate Next(c: Config, s: State, t: State) {
    exists step :: Enabled(c, s, step) && t == Do(c, s, step)
  }

  // ----- sums over the pool -----

  /** The job a worker holds, if any. */
  function JobOf(w: Worker): multiset<Job> {
    if Busy(w) then multiset{w.job} else multiset{}
  }

  function InProgress(ws: seq<Worker>): multiset<Job> {
    if ws == [] then multiset{} else InProgress(ws[..|ws| - 1]) + JobOf(ws[|ws| - 1])
  }

  function Tally(ws: seq<Worker>, weight: Worker -> nat): nat {
    if ws == [] then 0 else Tally(ws[..|ws| - 1], weight) + weight(ws[|ws| - 1])
  }

  function Running(w: Worker): nat { if w.Exited? then 0 else 1 }

  function CountsSent(w: Worker): nat { if w.Counting? && w.sent then 1 else 0 }

  function CountsDropped(w: Worker): nat { if w.Counting? && !w.sent then 1 else 0 }

  lemma {:induction false} TallyUpdate(ws: seq<Worker>, i: nat, w: Worker, weight: Worker -> nat)
    requires i < |ws|
    ensures Tally(ws[i := w], weight) + weight(ws[i]) == Tally(ws, weight) + weight(w)
  {
    var last := |ws| - 1;
    if i == last {
      assert ws[i := w][..last] == ws[..last];
    } else {
      assert ws[i := w][..last] == ws[..last][i := w];
      TallyUpdate(ws[..last], i, w, weight);
    }
  }

  function Holds(j: Job): Worker -> nat {
    (w: Worker) => JobOf(w)[j]
  }

  lemma {:induction false} HeldIsTally(ws: seq<Worker>, j: Job)
    ensures InProgress(ws)[j] == Tally(ws, Holds(j))
  {
    if ws != [] {
      HeldIsTally(ws[..|ws| - 1], j);
    }
  }

  /** What one change of a worker does to the jobs held, job by job. */
  lemma InProgressUpdate(ws: seq<Worker>, i: nat, w: Worker, j: Job)
    requires i < |ws|
    ensures InProgress(ws[i := w])[j] + JobOf(ws[i])[j] == InProgress(ws)[j] + JobOf(w)[j]
  {
    HeldIsTally(ws, j);
    HeldIsTally(ws[i := w], j);
    TallyUpdate(ws, i, w, Holds(j));
    assert Holds(j)(ws[i]) == JobOf(ws[i])[j] && Holds(j)(w) == JobOf(w)[j];
  }

  lemma {:induction false} TallyBounds(ws: seq<Worker>, i: nat, weight: Worker -> nat)
    requires i < |ws|
    ensures weight(ws[i]) <= Tally(ws, weight)
  {
    if i < |ws| - 1 {
      TallyBounds(ws[..|ws| - 1], i, weight);
    }
  }

  lemma {:induction false} NobodyHoldsAJob(ws: seq<Worker>)
    requires forall i :: 0 <= i < |ws| ==> ws[i].Exited?
    ensures InProgress(ws) == multiset{} && Tally(ws, Running) == 0
    ensures Tally(ws, CountsSent) == 0 && Tally(ws, CountsDropped) == 0
  {
    if ws != [] {
      NobodyHoldsAJob(ws[..|ws| - 1]);
    }
  }

  lemma {:induction false} FreshPool(n: nat)
    ensures InProgress(seq(n, _ => NotStarted)) == multiset{} && Tally(seq(n, _ => NotStarted), Running) == n
    ensures Tally(seq(n, _ => NotStarted), CountsSent) == 0 && Tally(seq(n, _ => NotStarted), CountsDropped) == 0
  {
    if n > 0 {
      assert seq(n, _ => NotStarted)[..n - 1] == seq(n - 1, _ => NotStarted);
      FreshPool(n - 1);
    }
  }

  // ----- the invariant -----

  predicate IngestOk(c: Config, g: Ingest) {
    && |g.queue| <= c.capacity
    && |g.accepted| + g.dropped == g.attempts
    && g.accepted == g.dequeued + g.queue
  }

  predicate PoolOk(c: Config, p: Pool) {
    && |p.workers| == c.workers && |p.doneBy| == c.workers
    && p.wg == Tally(p.workers, Running)
    && (forall i :: 0 <= i < c.workers ==> p.doneBy[i] == if p.workers[i].Exited? then 1 else 0)
    && (forall i :: 0 <= i < c.workers ==> p.workers[i].Exited? ==> p.sawEmpty || p.cancelled)
  }

  predicate WorkOk(g: Ingest, p: Pool) {
    && multiset(g.dequeued) == p.finished + InProgress(p.workers)
    && (p.sawEmpty ==> g.closed && g.queue == [])
  }

  predicate FanoutOk(f: Fanout, p: Pool) {
    && f.framesSent + f.othersSent + Tally(p.workers, CountsSent) == f.sendsOk
    && f.fanoutDropped + f.othersDropped + Tally(p.workers, CountsDropped) == f.sendsFailed
  }

  /** One frame, the one for the outcome, to the connection of the job; none on errors that are no consent errors. */
  predicate SentRight(s: Served) {
    && s.outcome.Some?
    && match FrameFor(s.outcome.value)
       case Some(frame) => |s.sends| == 1 && s.sends[0].frame == frame && s.sends[0].conn == s.job.conn
       case None => s.sends == []
  }

  /** Everything that is due for the job was done, once: its frame, and the close after a consent error. */
  predicate Complete(s: Served) {
    SentRight(s) && s.closes == if IsConsentError(s.outcome.value) then 1 else 0
  }

  /** How far the job of a busy worker is. */
  predicate AtStage(s: Served, w: Worker)
    requires Busy(w)
  {
    && s.job == w.job && s.closes == 0
    && match w
       case Processing(_, _) => s.outcome.None? && s.sends == []
       case Delivering(_, _, o) => s.outcome == Some(o) && FrameFor(o).Some? && s.sends == []
       case Counting(_, _, o, sent) =>
         s.outcome == Some(o) && FrameFor(o).Some? && SentRight(s) && s.sends[0].ok == sent
       case Closing(_, _, o) => s.outcome == Some(o) && IsConsentError(o) && SentRight(s)
  }

  predicate HeldBy(ws: seq<Worker>, n: nat, i: nat) {
    i < |ws| && Busy(ws[i]) && ws[i].n == n
  }

  ghost predicate IsHeld(ws: seq<Worker>, n: nat) {
    exists i: nat :: HeldBy(ws, n, i)
  }

  ghost predicate StagesOk(log: seq<Served>, ws: seq<Worker>) {
    forall n: nat, i: nat :: HeldBy(ws, n, i) ==> n < |log| && AtStage(log[n], ws[i])
  }

  /** The log has every job that left the channel, in order; one worker at most is busy with each; what nobody is busy
      with is complete. */
  ghost predicate LogOk(g: Ingest, log: seq<Served>, ws: seq<Worker>) {
    && |log| == |g.dequeued| && (forall n :: 0 <= n < |log| ==> log[n].job == g.dequeued[n])
    && StagesOk(log, ws)
    && (forall n: nat, i: nat, j: nat :: HeldBy(ws, n, i) && HeldBy(ws, n, j) ==> i == j)
    && (forall n :: 0 <= n < |log| ==> IsHeld(ws, n) || Complete(log[n]))
  }

  predicate DrainOk(s: State) {
    var d := s.drain;
    && (s.ingest.closed <==> d.phase.Waiting? || d.phase.ReturnedNil? || d.phase.ReturnedError?)
    && (d.phase.Serving? ==> d.offered == {})
    && (d.phase.Broadcasting? ==> d.offered + d.phase.left == d.snapshot && d.offered !! d.phase.left)
    && (s.ingest.closed ==> d.offered == d.snapshot)
    && (forall u :: u in d.conns ==> d.conns[u].user == u)
  }

  predicate ReturnOk(s: State) {
    s.drain.phase.ReturnedNil? ==> s.pool.wg == 0
  }

  ghost predicate Inv(c: Config, s: State) {
    IngestOk(c, s.ingest) && PoolOk(c, s.pool) && WorkOk(s.ingest, s.pool) && FanoutOk(s.fanout, s.pool)
    && LogOk(s.ingest, s.log, s.pool.workers) && DrainOk(s) && ReturnOk(s)
  }

  lemma NewIsOk(c: Config)
    ensures Inv(c, New(c))
  {
    FreshPool(c.workers);
  }

  lemma IngestMoveKeepsOk(c: Config, g: Ingest, move: Move)
    requires IngestOk(c, g) && (move.Receives? ==> g.queue != [])
    ensures IngestOk(c, IngestAfter(g, move))
  {
    if move.Receives? {
      assert g.dequeued + g.queue == g.dequeued + ([g.queue[0]] + g.queue[1..]);
    }
  }

  lemma PoolMoveKeepsTally(g: Ingest, p: Pool, i: nat, move: Move)
    requires WorkerEnabled(g, p, i, move) && p.wg == Tally(p.workers, Running)
    ensures PoolAfter(g, p, i, move).wg == Tally(PoolAfter(g, p, i, move).workers, Running)
  {
    TallyUpdate(p.workers, i, NextWorker(g, p.workers[i], move), Running);
  }

  lemma PoolMoveKeepsOk(c: Config, g: Ingest, p: Pool, i: nat, move: Move)
    requires PoolOk(c, p) && WorkerEnabled(g, p, i, move)
    ensures PoolOk(c, PoolAfter(g, p, i, move))
  {
    var q := PoolAfter(g, p, i, move);
    PoolMoveKeepsTally(g, p, i, move);
    forall k | 0 <= k < c.workers
      ensures q.doneBy[k] == (if q.workers[k].Exited? then 1 else 0) && (q.workers[k].Exited? ==> q.sawEmpty || q.cancelled)
    {
      assert p.doneBy[k] == (if p.workers[k].Exited? then 1 else 0);
      assert k != i ==> q.workers[k] == p.workers[k] && q.doneBy[k] == p.doneBy[k];
    }
  }

  /** What a worker holds after a move: what it received, nothing if it is back at its select, what it held else. */
  lemma HeldAfter(g: Ingest, cancelled: bool, w: Worker, move: Move)
    requires MoveEnabled(g, cancelled, w, move)
    ensures move.Receives? ==> JobOf(w) == multiset{} && JobOf(NextWorker(g, w, move)) == multiset{g.queue[0]}
    ensures NextWorker(g, w, move).Idle? ==> JobOf(NextWorker(g, w, move)) == multiset{}
    ensures !move.Receives? && !NextWorker(g, w, move).Idle? ==> JobOf(NextWorker(g, w, move)) == JobOf(w)
  {
  }

  function Received(g: Ingest, move: Move): multiset<Job>
    requires move.Receives? ==> g.queue != []
  {
    if move.Receives? then multiset{g.queue[0]} else multiset{}
  }

  lemma MoveKeepsSumOf(g: Ingest, p: Pool, i: nat, move: Move, j: Job)
    requires WorkerEnabled(g, p, i, move)
    ensures PoolAfter(g, p, i, move).finished[j] + InProgress(PoolAfter(g, p, i, move).workers)[j]
            == p.finished[j] + InProgress(p.workers)[j] + Received(g, move)[j]
  {
    HeldAfter(g, p.cancelled, p.workers[i], move);
    InProgressUpdate(p.workers, i, NextWorker(g, p.workers[i], move), j);
  }

  /** Finished and held jobs together gain exactly what the worker receives. */
  lemma MoveKeepsSum(g: Ingest, p: Pool, i: nat, move: Move)
    requires WorkerEnabled(g, p, i, move)
    ensures PoolAfter(g, p, i, move).finished + InProgress(PoolAfter(g, p, i, move).workers)
            == p.finished + InProgress(p.workers) + Received(g, move)
  {
    var q := PoolAfter(g, p, i, move);
    forall j: Job
      ensures (q.finished + InProgress(q.workers))[j] == (p.finished + InProgress(p.workers) + Received(g, move))[j]
    {
      MoveKeepsSumOf(g, p, i, move, j);
    }
  }

  lemma WorkMoveKeepsOk(g: Ingest, p: Pool, i: nat, move: Move)
    requires WorkOk(g, p) && WorkerEnabled(g, p, i, move)
    ensures WorkOk(IngestAfter(g, move), PoolAfter(g, p, i, move))
  {
    MoveKeepsSum(g, p, i, move);
    if move.Receives? {
      assert multiset(g.dequeued + [g.queue[0]]) == multiset(g.dequeued) + multiset{g.queue[0]};
    }
  }

  lemma FanoutMoveKeepsOk(g: Ingest, p: Pool, f: Fanout, i: nat, move: Move)
    requires FanoutOk(f, p) && WorkerEnabled(g, p, i, move)
    ensures FanoutOk(FanoutAfter(f, p.workers[i], move), PoolAfter(g, p, i, move))
  {
    var w := NextWorker(g, p.workers[i], move);
    TallyUpdate(p.workers, i, w, CountsSent);
    TallyUpdate(p.workers, i, w, CountsDropped);
  }

  lemma ReceivingKeepsLog(g: Ingest, log: seq<Served>, ws: seq<Worker>, i: nat, job: Job)
    requires LogOk(g, log, ws) && i < |ws| && ws[i].Idle?
    ensures LogOk(g.(dequeued := g.dequeued + [job]), log + [Served(job, None, [], 0)],
                  ws[i := Processing(job, |g.dequeued|)])
  {
    var ws', log' := ws[i := Processing(job, |g.dequeued|)], log + [Served(job, None, [], 0)];
    forall n: nat, k: nat | HeldBy(ws', n, k)
      ensures n < |log'| && AtStage(log'[n], ws'[k])
      ensures if k == i then n == |log| else n < |log| && HeldBy(ws, n, k)
    {
      if k != i {
        assert HeldBy(ws, n, k);
      }
    }
    forall n: nat | n < |log|
      ensures IsHeld(ws', n) || Complete(log[n])
    {
      if IsHeld(ws, n) {
        var k: nat :| HeldBy(ws, n, k);
        assert HeldBy(ws', n, k);
      }
    }
    assert HeldBy(ws', |log|, i);
  }

  /** What one move of a busy worker does to its job's entry. */
  lemma MoveServes(g: Ingest, cancelled: bool, s: Served, w: Worker, move: Move)
    requires MoveEnabled(g, cancelled, w, move) && Busy(w) && AtStage(s, w)
    ensures var w' := NextWorker(g, w, move);
            var s' := ServedAfter(s, w, move);
            s'.job == s.job && if Busy(w') then w'.n == w.n && AtStage(s', w') else Complete(s')
  {
  }

  lemma ServingKeepsLog(g: Ingest, log: seq<Served>, ws: seq<Worker>, i: nat, w': Worker, s': Served)
    requires LogOk(g, log, ws) && i < |ws| && Busy(ws[i]) && ws[i].n < |log|
    requires s'.job == log[ws[i].n].job
    requires if Busy(w') then w'.n == ws[i].n && AtStage(s', w') else Complete(s')
    ensures LogOk(g, log[ws[i].n := s'], ws[i := w'])
  {
    var m, log', ws' := ws[i].n, log[ws[i].n := s'], ws[i := w'];
    assert HeldBy(ws, m, i);
    forall n: nat, k: nat | HeldBy(ws', n, k)
      ensures n < |log'| && AtStage(log'[n], ws'[k]) && (k == i || (n != m && HeldBy(ws, n, k)))
    {
      if k != i {
        assert HeldBy(ws, n, k);
      }
    }
    forall n | 0 <= n < |log'|
      ensures IsHeld(ws', n) || Complete(log'[n])
    {
      if n == m {
        assert Busy(w') ==> HeldBy(ws', n, i);
      } else if IsHeld(ws, n) {
        var k: nat :| HeldBy(ws, n, k);
        assert HeldBy(ws', n, k);
      }
    }
  }

  lemma LogMoveKeepsOk(g: Ingest, p: Pool, log: seq<Served>, i: nat, move: Move)
    requires LogOk(g, log, p.workers) && WorkerEnabled(g, p, i, move)
    ensures LogOk(IngestAfter(g, move), LogAfter(g, log, p.workers[i], move), PoolAfter(g, p, i, move).workers)
  {
    var w := p.workers[i];
    if move.Receives? {
      ReceivingKeepsLog(g, log, p.workers, i, g.queue[0]);
    } else if Busy(w) {
      assert HeldBy(p.workers, w.n, i);
      MoveServes(g, p.cancelled, log[w.n], w, move);
      ServingKeepsLog(g, log, p.workers, i, NextWorker(g, w, move), ServedAfter(log[w.n], w, move));
    } else {
      IdlingKeepsLog(g, log, p.workers, i, NextWorker(g, w, move));
    }
  }

  lemma IdlingKeepsLog(g: Ingest, log: seq<Served>, ws: seq<Worker>, i: nat, w': Worker)
    requires LogOk(g, log, ws) && i < |ws| && !Busy(ws[i]) && !Busy(w')
    ensures LogOk(g, log, ws[i := w'])
  {
    var ws' := ws[i := w'];
    forall n: nat, k: nat | HeldBy(ws', n, k)
      ensures HeldBy(ws, n, k) && n < |log| && AtStage(log[n], ws'[k])
    {
      assert k != i && HeldBy(ws, n, k);
    }
    forall n: nat | n < |log|
      ensures IsHeld(ws', n) || Complete(log[n])
    {
      if IsHeld(ws, n) {
        var k: nat :| HeldBy(ws, n, k);
        assert HeldBy(ws', n, k);
      }
    }
  }

  lemma WorkerKeepsDrain(c: Config, s: State, i: nat, move: Move)
    requires PoolOk(c, s.pool) && DrainOk(s) && ReturnOk(s) && WorkerEnabled(s.ingest, s.pool, i, move)
    ensures DrainOk(Do(c, s, WorkerMoves(i, move))) && ReturnOk(Do(c, s, WorkerMoves(i, move)))
  {
    TallyBounds(s.pool.workers, i, Running);
    assert s.pool.wg > 0;
    assert Do(c, s, WorkerMoves(i, move)).drain == s.drain;
    assert IngestAfter(s.ingest, move).closed == s.ingest.closed;
  }

  lemma WorkerKeepsInv(c: Config, s: State, i: nat, move: Move)
    requires Inv(c, s) && WorkerEnabled(s.ingest, s.pool, i, move)
    ensures Inv(c, Do(c, s, WorkerMoves(i, move)))
  {
    IngestMoveKeepsOk(c, s.ingest, move);
    PoolMoveKeepsOk(c, s.ingest, s.pool, i, move);
    WorkMoveKeepsOk(s.ingest, s.pool, i, move);
    FanoutMoveKeepsOk(s.ingest, s.pool, s.fanout, i, move);
    LogMoveKeepsOk(s.ingest, s.pool, s.log, i, move);
    WorkerKeepsDrain(c, s, i, move);
  }

  lemma HandoffKeepsPool(c: Config, p: Pool, job: Job, n: nat, i: nat)
    requires PoolOk(c, p) && i < |p.workers| && p.workers[i].Idle?
    ensures PoolOk(c, p.(workers := p.workers[i := Processing(job, n)]))
  {
    TallyUpdate(p.workers, i, Processing(job, n), Running);
  }

  lemma HandoffKeepsWork(g: Ingest, p: Pool, job: Job, i: nat)
    requires WorkOk(g, p) && !g.closed && i < |p.workers| && p.workers[i].Idle?
    ensures multiset(g.dequeued + [job]) == p.finished + InProgress(p.workers[i := Processing(job, |g.dequeued|)])
  {
    forall j: Job
      ensures (multiset(g.dequeued) + multiset{job})[j]
              == (p.finished + InProgress(p.workers[i := Processing(job, |g.dequeued|)]))[j]
    {
      InProgressUpdate(p.workers, i, Processing(job, |g.dequeued|), j);
    }
    assert multiset(g.dequeued + [job]) == multiset(g.dequeued) + multiset{job};
  }

  lemma HandoffKeepsFanout(f: Fanout, p: Pool, job: Job, n: nat, i: nat)
    requires FanoutOk(f, p) && i < |p.workers| && p.workers[i].Idle?
    ensures FanoutOk(f, p.(workers := p.workers[i := Processing(job, n)]))
  {
    TallyUpdate(p.workers, i, Processing(job, n), CountsSent);
    TallyUpdate(p.workers, i, Processing(job, n), CountsDropped);
  }

  lemma HandoffKeepsInv(c: Config, s: State, job: Job, i: nat)
    requires Inv(c, s) && Enabled(c, s, Handoff(job, i))
    ensures Inv(c, Do(c, s, Handoff(job, i)))
  {
    HandoffKeepsPool(c, s.pool, job, |s.ingest.dequeued|, i);
    HandoffKeepsWork(s.ingest, s.pool, job, i);
    HandoffKeepsFanout(s.fanout, s.pool, job, |s.ingest.dequeued|, i);
    ReceivingKeepsLog(s.ingest, s.log, s.pool.workers, i, job);
    assert s.ingest.accepted + [job] == s.ingest.dequeued + [job] + s.ingest.queue;
  }

  lemma ShutdownKeepsInv(c: Config, s: State, move: ShutdownMove)
    requires Inv(c, s) && ShutdownEnabled(s, move)
    ensures Inv(c, Do(c, s, ShutdownMoves(move)))
  {
    var t := Do(c, s, ShutdownMoves(move));
    assert IngestOk(c, t.ingest) && WorkOk(t.ingest, t.pool);
    assert FanoutOk(t.fanout, t.pool);
    match move
    case Snapshots =>
    case Broadcasts(conn, _) =>
      assert t.drain.offered + t.drain.phase.left == s.drain.offered + s.drain.phase.left;
    case ClosesIngest =>
    case ReturnsNil =>
    case ReturnsError =>
  }

  lemma StepKeepsInv(c: Config, s: State, step: Step)
    requires Inv(c, s) && Enabled(c, s, step)
    ensures Inv(c, Do(c, s, step))
  {
    match step
    case Enqueue(job) =>
      assert s.ingest.dequeued + (s.ingest.queue + [job]) == s.ingest.accepted + [job];
      assert IngestOk(c, Offer(c, s.ingest, job));
    case Handoff(job, i) => HandoffKeepsInv(c, s, job, i);
    case WorkerMoves(i, move) => WorkerKeepsInv(c, s, i, move);
    case OtherSends(ok) => assert FanoutOk(OtherSent(s.fanout, ok), s.pool);
    case OtherCounts(ok) =>
    case Register(conn) =>
    case Unregister(conn) =>
    case ContextCancelled =>
    case ShutdownMoves(move) => ShutdownKeepsInv(c, s, move);
  }

  lemma {:induction false} ReachableInv(c: Config, trace: seq<State>, i: nat)
    requires IsRun(c, trace) && i < |trace|
    ensures Inv(c, trace[i])
  {
    if i == 0 {
      NewIsOk(c);
    } else {
      ReachableInv(c, trace, i - 1);
      assert FollowsAt(c, trace, i);
      var step :| Enabled(c, trace[i - 1], step) && trace[i] == Do(c, trace[i - 1], step);
      StepKeepsInv(c, trace[i - 1], step);
    }
  }

  // ----- the main results -----

  /** At every moment of every run: the channel is never over capacity; every attempt was either accepted or counted
      as dropped; jobs leave the channel in the order they were accepted; every job that left is held by exactly one
      worker or finished. */
  lemma JobsAreConserved(c: Config, trace: seq<State>, i: nat)
    requires IsRun(c, trace) && i < |trace|
    ensures |trace[i].ingest.queue| <= c.capacity
    ensures |trace[i].ingest.accepted| + trace[i].ingest.dropped == trace[i].ingest.attempts
    ensures trace[i].ingest.accepted == trace[i].ingest.dequeued + trace[i].ingest.queue
    ensures multiset(trace[i].ingest.accepted)
            == trace[i].pool.finished + InProgress(trace[i].pool.workers) + multiset(trace[i].ingest.queue)
  {
    ReachableInv(c, trace, i);
  }

  /** Every Send is counted once: the two counters, plus the deliveries still between Send and counting, add up to
      the Sends that succeeded and failed. When nobody is in between, FramesSent plus FanoutDropped is the number of
      deliveries. */
  lemma DeliveriesAreCounted(c: Config, trace: seq<State>, i: nat)
    requires IsRun(c, trace) && i < |trace|
    ensures FanoutOk(trace[i].fanout, trace[i].pool)
    ensures trace[i].pool.wg == 0 && trace[i].fanout.othersSent == trace[i].fanout.othersDropped == 0 ==>
              trace[i].fanout.framesSent == trace[i].fanout.sendsOk
              && trace[i].fanout.fanoutDropped == trace[i].fanout.sendsFailed
  {
    ReachableInv(c, trace, i);
    if trace[i].pool.wg == 0 {
      AllExited(c, trace[i].pool);
    }
  }

  /** Job by job: what was sent for the n-th job that left the channel is at most one frame, the one for the outcome of
      its service call, to its own connection; its connection is closed at most once, after that frame and for a
      consent error only. As soon as no worker is busy with the job, all that is due has been done: the results or the
      drain frame were sent, on any other error nothing was, and exactly the consent errors closed. */
  lemma EachJobIsAnsweredOnce(c: Config, trace: seq<State>, i: nat, n: nat)
    requires IsRun(c, trace) && i < |trace| && n < |trace[i].ingest.dequeued|
    ensures n < |trace[i].log| && trace[i].log[n].job == trace[i].ingest.dequeued[n]
    ensures var s := trace[i].log[n];
            && (s.sends != [] ==> SentRight(s))
            && (s.closes > 0 ==> s.closes == 1 && s.sends != [] && IsConsentError(s.outcome.value))
            && (Complete(s) || IsHeld(trace[i].pool.workers, n))
            && (trace[i].pool.wg == 0 ==> Complete(s))
  {
    ReachableInv(c, trace, i);
    var t := trace[i];
    if IsHeld(t.pool.workers, n) {
      var k: nat :| HeldBy(t.pool.workers, n, k);
      assert AtStage(t.log[n], t.pool.workers[k]);
    }
    if t.pool.wg == 0 {
      AllExited(c, t.pool);
    }
  }

  /** What the frame of a job says, outcome by outcome: the results to a service call that answered, the way out to a user
      without consent, and that there is no frame on any other error. A connection is closed on consent errors alone. */
  predicate SaysOutcome(s: Served, o: Outcome) {
    && (s.sends != [] ==>
          var frame := s.sends[0].frame;
          && (frame.kind == "nearby_update" <==> o.Ok?)
          && (frame.kind == "drain" && frame.reconnectHint == "consent_required" <==> o == Err(ConsentRequired))
          && (frame.kind == "drain" && frame.reconnectHint == "consent_expired" <==> o == Err(ConsentExpired))
          && (o.Ok? ==> frame.users == o.value && frame.reconnectHint == "")
          && (o.Err? ==> frame.users == [] && (o.error.ConsentRequired? || o.error.ConsentExpired?)))
    && (s.closes > 0 ==> o == Err(ConsentRequired) || o == Err(ConsentExpired))
  }

  /** In every run the frame sent for a job, and its close, are those for how its service call ended; as soon as no worker
      is busy with the job, it has a frame if and only if the call answered or found no consent, and was closed if and
      only if it found none. */
  lemma FramesSayTheOutcome(c: Config, trace: seq<State>, i: nat, n: nat)
    requires IsRun(c, trace) && i < |trace| && n < |trace[i].ingest.dequeued|
    ensures n < |trace[i].log|
    ensures var s := trace[i].log[n];
            && (s.sends != [] || s.closes > 0 ==> s.outcome.Some?)
            && (s.outcome.Some? ==> SaysOutcome(s, s.outcome.value))
            && (!IsHeld(trace[i].pool.workers, n) ==>
                  var noConsent := s.outcome == Some(Err(ConsentRequired)) || s.outcome == Some(Err(ConsentExpired));
                  && s.outcome.Some? && (s.sends != [] <==> s.outcome.value.Ok? || noConsent)
                  && (s.closes == 1 <==> noConsent))
  {
    EachJobIsAnsweredOnce(c, trace, i, n);
    ReachableInv(c, trace, i);
    var t := trace[i];
    if IsHeld(t.pool.workers, n) {
      var k: nat :| HeldBy(t.pool.workers, n, k);
      assert AtStage(t.log[n], t.pool.workers[k]);
    }
  }

  predicate AllDone(c: Config, p: Pool) {
    && |p.workers| == |p.doneBy| == c.workers
    && forall i :: 0 <= i < c.workers ==> p.workers[i].Exited? && p.doneBy[i] == 1
  }

  lemma AllExited(c: Config, p: Pool)
    requires PoolOk(c, p) && p.wg == 0
    ensures AllDone(c, p)
    ensures InProgress(p.workers) == multiset{}
    ensures Tally(p.workers, CountsSent) == 0 && Tally(p.workers, CountsDropped) == 0
  {
    forall i | 0 <= i < c.workers ensures p.workers[i].Exited? {
      TallyBounds(p.workers, i, Running);
    }
    NobodyHoldsAJob(p.workers);
  }

  /** A nil return from Shutdown: every worker has called Done exactly once and holds no job, and every connection
      registered when Shutdown began was offered its drain frame. If there is at least one worker and the context was
      not cancelled, every accepted job has also been processed, exactly as often as it was accepted. */
  lemma ShutdownReturnedNil(c: Config, trace: seq<State>, i: nat)
    requires IsRun(c, trace) && i < |trace| && trace[i].drain.phase.ReturnedNil?
    ensures AllDone(c, trace[i].pool)
    ensures trace[i].drain.offered == trace[i].drain.snapshot
    ensures multiset(trace[i].ingest.dequeued) == trace[i].pool.finished
    ensures c.workers > 0 && !trace[i].pool.cancelled ==>
              trace[i].ingest.queue == [] && trace[i].pool.finished == multiset(trace[i].ingest.accepted)
  {
    ReachableInv(c, trace, i);
    var s := trace[i];
    AllExited(c, s.pool);
    if c.workers > 0 && !s.pool.cancelled {
      assert s.pool.workers[0].Exited?;
      assert s.ingest.accepted == s.ingest.dequeued;
    }
  }

  lemma ExtendRun(c: Config, trace: seq<State>, t: State)
    requires IsRun(c, trace) && Next(c, trace[|trace| - 1], t)
    ensures IsRun(c, trace + [t])
  {
    var longer := trace + [t];
    forall i | 0 < i < |longer|
      ensures FollowsAt(c, longer, i)
    {
      if i < |trace| { assert FollowsAt(c, trace, i); }
    }
  }

  /** A shutdown nobody disturbs, of a hub without connections whose WaitGroup is at zero. */
  lemma QuietShutdown(c: Config, trace: seq<State>) returns (longer: seq<State>)
    requires IsRun(c, trace)
    requires var s := trace[|trace| - 1]; s.drain.phase.Serving? && s.drain.conns == map[] && s.pool.wg == 0
    ensures IsRun(c, longer)
    ensures var s, d := trace[|trace| - 1], longer[|longer| - 1];
            d.drain.phase.ReturnedNil? && d.ingest.accepted == s.ingest.accepted && d.pool == s.pool
  {
    var s := trace[|trace| - 1];
    var a, b, d := ShutdownSteps(c, s);
    ExtendRun(c, trace, a);
    ExtendRun(c, trace + [a], b);
    ExtendRun(c, trace + [a] + [b], d);
    longer := trace + [a] + [b] + [d];
  }

  lemma ShutdownSteps(c: Config, s: State) returns (a: State, b: State, d: State)
    requires s.drain.phase.Serving? && s.drain.conns == map[] && s.pool.wg == 0
    ensures Next(c, s, a) && Next(c, a, b) && Next(c, b, d)
    ensures d.drain.phase.ReturnedNil? && d.ingest.accepted == s.ingest.accepted && d.pool == s.pool
  {
    assert s.drain.conns.Values == {};
    a := Do(c, s, ShutdownMoves(Snapshots));
    b := Do(c, a, ShutdownMoves(ClosesIngest));
    d := Do(c, b, ShutdownMoves(ReturnsNil));
  }

  /** Both conditions are needed. Without workers nobody counts in the WaitGroup, and Shutdown returns nil with the
      accepted job still in the channel. */
  lemma NoWorkersLoseJobs(job: Job)
    ensures exists trace :: IsRun(Config(1, 0), trace) && ReturnsNilWithoutWork(trace[|trace| - 1], job)
  {
    var c := Config(1, 0);
    var s := Do(c, New(c), Enqueue(job));
    ExtendRun(c, [New(c)], s);
    var trace := QuietShutdown(c, [New(c)] + [s]);
    assert ReturnsNilWithoutWork(trace[|trace| - 1], job);
  }

  /** A worker's select may pick the cancelled context although a job is waiting. */
  lemma WorkerLeavesWithJobWaiting(c: Config, s: State, job: Job) returns (s3: State, s4: State)
    requires Enabled(c, s, Enqueue(job)) && |s.ingest.queue| < c.capacity
    requires s.pool.workers == [Idle] && |s.pool.doneBy| == 1 && s.pool.wg == 1
    ensures Next(c, Do(c, s, Enqueue(job)), s3) && Next(c, s3, s4)
    ensures s4.ingest.accepted == s.ingest.accepted + [job] && s4.pool.finished == s.pool.finished && s4.pool.wg == 0
    ensures s4.drain == s.drain
  {
    s3 := Do(c, Do(c, s, Enqueue(job)), ContextCancelled);
    s4 := Do(c, s3, WorkerMoves(0, SeesCancel));
  }

  /** So after the context of Run was cancelled, Shutdown can return nil with an accepted job unprocessed. */
  lemma CancelledWorkersLoseJobs(job: Job)
    ensures exists trace :: IsRun(Config(1, 1), trace) && ReturnsNilWithoutWork(trace[|trace| - 1], job)
  {
    var c := Config(1, 1);
    var s1 := Do(c, New(c), WorkerMoves(0, Starts));
    var s2 := Do(c, s1, Enqueue(job));
    var s3, s4 := WorkerLeavesWithJobWaiting(c, s1, job);
    ExtendRun(c, [New(c)], s1);
    ExtendRun(c, [New(c)] + [s1], s2);
    ExtendRun(c, [New(c)] + [s1] + [s2], s3);
    ExtendRun(c, [New(c)] + [s1] + [s2] + [s3], s4);
    var trace := QuietShutdown(c, [New(c)] + [s1] + [s2] + [s3] + [s4]);
    assert ReturnsNilWithoutWork(trace[|trace| - 1], job);
  }

  predicate ReturnsNilWithoutWork(s: State, job: Job) {
    s.drain.phase.ReturnedNil? && s.ingest.accepted == [job] && s.pool.finished == multiset{}
  }

  // ----- shutdown makes progress -----

  /** Upper bounds on the moves a worker makes before it is back at its select or gone, and on those a queued job
      costs. */
  function MovesLeft(w: Worker): nat {
    match w
    case NotStarted => 2
    case Idle => 1
    case Processing(_, _) => 5
    case Delivering(_, _, _) => 4
    case Counting(_, _, _, _) => 3
    case Closing(_, _, _) => 2
    case Exited => 0
  }

  function Load(g: Ingest, p: Pool): nat {
    5 * |g.queue| + Tally(p.workers, MovesLeft)
  }

  /** Every worker move lowers the load, whatever the service and the connections answer. */
  lemma WorkerMovesLowerLoad(g: Ingest, p: Pool, i: nat, move: Move)
    requires WorkerEnabled(g, p, i, move)
    ensures Load(IngestAfter(g, move), PoolAfter(g, p, i, move)) < Load(g, p)
  {
    TallyUpdate(p.workers, i, NextWorker(g, p.workers[i], move), MovesLeft);
  }

  /** Once the channel is closed nobody else raises it, so the workers make at most Load more moves in any run. */
  lemma NobodyElseRaisesLoad(c: Config, s: State, step: Step)
    requires Enabled(c, s, step) && s.ingest.closed && !step.WorkerMoves?
    ensures Load(Do(c, s, step).ingest, Do(c, s, step).pool) == Load(s.ingest, s.pool)
    ensures Do(c, s, step).ingest.closed
  {
  }

  /** And as long as the WaitGroup is not at zero some worker has a move, so the moves end with the nil return. */
  lemma SomeWorkerCanMove(c: Config, s: State) returns (i: nat, move: Move)
    requires Inv(c, s) && s.ingest.closed && s.pool.wg > 0
    ensures WorkerEnabled(s.ingest, s.pool, i, move)
  {
    if forall k :: 0 <= k < c.workers ==> s.pool.workers[k].Exited? {
      NobodyHoldsAJob(s.pool.workers);
      assert false;
    }
    i :| 0 <= i < c.workers && !s.pool.workers[i].Exited?;
    move := match s.pool.workers[i]
            case NotStarted => Starts
            case Idle => if s.ingest.queue == [] then FindsClosed else Receives
            case Processing(_, _) => Computes(Err(PresenceError.Unavailable))
            case Delivering(_, _, _) => Sends(true)
            case Counting(_, _, _, _) => Counts
            case Closing(_, _, _) => Closes
            case Exited => Starts;
  }

  /** How often a worker moves between two positions of a run; after the channel is closed nobody else touches the
      workers. */
  function MovesBetween(trace: seq<State>, i: nat, j: nat): nat
    requires i <= j < |trace|
  {
    if i == j then 0
    else MovesBetween(trace, i, j - 1) + if trace[j].pool.workers == trace[j - 1].pool.workers then 0 else 1
  }

  lemma ClosedStepLowersLoad(c: Config, s: State, t: State)
    requires Next(c, s, t) && s.ingest.closed
    ensures t.ingest.closed
    ensures Load(t.ingest, t.pool) + (if t.pool.workers == s.pool.workers then 0 else 1) <= Load(s.ingest, s.pool)
  {
    var step :| Enabled(c, s, step) && t == Do(c, s, step);
    if step.WorkerMoves? {
      WorkerMovesLowerLoad(s.ingest, s.pool, step.i, step.move);
    } else {
      NobodyElseRaisesLoad(c, s, step);
    }
  }

  /** In any run, from the moment the channel is closed the workers make at most Load moves in all, whoever else moves
      in between. */
  lemma {:induction false} WorkersSettle(c: Config, trace: seq<State>, i: nat, j: nat)
    requires IsRun(c, trace) && i <= j < |trace| && trace[i].ingest.closed
    ensures trace[j].ingest.closed
    ensures MovesBetween(trace, i, j) + Load(trace[j].ingest, trace[j].pool) <= Load(trace[i].ingest, trace[i].pool)
    decreases j
  {
    if i < j {
      WorkersSettle(c, trace, i, j - 1);
      assert FollowsAt(c, trace, j);
      ClosedStepLowersLoad(c, trace[j - 1], trace[j]);
    }
  }

  /** The next step towards the nil return: itself, if the WaitGroup is at zero, or a worker's move. */
  lemma StepTowardsNil(c: Config, s: State) returns (t: State)
    requires Inv(c, s) && s.drain.phase.Waiting?
    ensures Next(c, s, t)
    ensures t.drain.phase.ReturnedNil?
            || (t.drain.phase.Waiting? && Load(t.ingest, t.pool) < Load(s.ingest, s.pool))
  {
    if s.pool.wg == 0 {
      t := Do(c, s, ShutdownMoves(ReturnsNil));
    } else {
      var i, move := SomeWorkerCanMove(c, s);
      t := Do(c, s, WorkerMoves(i, move));
      WorkerMovesLowerLoad(s.ingest, s.pool, i, move);
    }
  }

  /** And a Shutdown that waits can always still return nil, after at most that many moves of the workers. */
  lemma {:induction false} WaitingCanReturnNil(c: Config, trace: seq<State>) returns (longer: seq<State>)
    requires IsRun(c, trace) && trace[|trace| - 1].drain.phase.Waiting?
    ensures IsRun(c, longer) && trace <= longer && longer[|longer| - 1].drain.phase.ReturnedNil?
    ensures |longer| <= |trace| + Load(trace[|trace| - 1].ingest, trace[|trace| - 1].pool) + 1
    decreases Load(trace[|trace| - 1].ingest, trace[|trace| - 1].pool)
  {
    ReachableInv(c, trace, |trace| - 1);
    var t := StepTowardsNil(c, trace[|trace| - 1]);
    ExtendRun(c, trace, t);
    if t.drain.phase.ReturnedNil? {
      longer := trace + [t];
    } else {
      longer := WaitingCanReturnNil(c, trace + [t]);
    }
  }

  /** What one step does to the registry: a connection is put in for its user, or taken out if it is the one there, or
      nothing happens; and Shutdown begins with all that are there. */
  lemma RegistryStep(c: Config, s: State, step: Step, u: string)
    requires Enabled(c, s, step) && DrainOk(s)
    ensures var t := Do(c, s, step);
            && (step.Register? && step.conn.user == u ==> u in t.drain.conns && t.drain.conns[u] == step.conn)
            && (step.Unregister? && u in s.drain.conns && s.drain.conns[u] == step.conn ==> u !in t.drain.conns)
            && (!(step.Register? && step.conn.user == u)
                && !(step.Unregister? && u in s.drain.conns && s.drain.conns[u] == step.conn) ==>
                  (u in t.drain.conns <==> u in s.drain.conns)
                  && (u in s.drain.conns ==> t.drain.conns[u] == s.drain.conns[u]))
            && (s.drain.phase.Serving? && !t.drain.phase.Serving? ==>
                  t.drain.snapshot == s.drain.conns.Values && t.drain.phase == Broadcasting(t.drain.snapshot))
  {
  }

  /** No step of a stretch of a run registers another connection of the user, or unregisters this one. */
  ghost predicate Undisturbed(c: Config, trace: seq<State>, i: nat, j: nat, conn: Conn)
    requires i <= j < |trace|
  {
    forall k :: i < k <= j ==> StaysIn(c, trace[k - 1], trace[k], conn)
  }

  ghost predicate StaysIn(c: Config, s: State, t: State, conn: Conn) {
    exists step :: Enabled(c, s, step) && t == Do(c, s, step)
                   && !(step.Register? && step.conn.user == conn.user) && step != Unregister(conn)
  }

  lemma {:induction false} RegisteredStays(c: Config, trace: seq<State>, i: nat, j: nat, conn: Conn)
    requires IsRun(c, trace) && i <= j < |trace| && Undisturbed(c, trace, i, j, conn)
    requires conn.user in trace[i].drain.conns && trace[i].drain.conns[conn.user] == conn
    ensures conn.user in trace[j].drain.conns && trace[j].drain.conns[conn.user] == conn
    decreases j
  {
    if i < j {
      RegisteredStays(c, trace, i, j - 1, conn);
      ReachableInv(c, trace, j - 1);
      assert StaysIn(c, trace[j - 1], trace[j], conn);
      var step :| Enabled(c, trace[j - 1], step) && trace[j] == Do(c, trace[j - 1], step)
                  && !(step.Register? && step.conn.user == conn.user) && step != Unregister(conn);
      RegistryStep(c, trace[j - 1], step, conn.user);
    }
  }

  /** A connection that was registered, and neither replaced nor unregistered before Shutdown began, is among those that
      are offered the drain frame. */
  lemma RegisteredIsInSnapshot(c: Config, trace: seq<State>, i: nat, j: nat, conn: Conn)
    requires IsRun(c, trace) && 0 < i <= j && j + 1 < |trace| && Enabled(c, trace[i - 1], Register(conn))
    requires trace[i] == Do(c, trace[i - 1], Register(conn)) && Undisturbed(c, trace, i, j, conn)
    requires trace[j].drain.phase.Serving? && !trace[j + 1].drain.phase.Serving?
    ensures conn in trace[j + 1].drain.snapshot
  {
    ReachableInv(c, trace, i - 1);
    RegistryStep(c, trace[i - 1], Register(conn), conn.user);
    RegisteredStays(c, trace, i, j, conn);
    ReachableInv(c, trace, j);
    assert FollowsAt(c, trace, j + 1);
    var step :| Enabled(c, trace[j], step) && trace[j + 1] == Do(c, trace[j], step);
    RegistryStep(c, trace[j], step, conn.user);
    assert trace[j].drain.conns[conn.user] in trace[j].drain.conns.Values;
  }

  /** A late Unregister of a replaced connection leaves the new one registered: after it, a user is registered
      exactly if they were, unless with this very connection. */
  lemma StaleUnregisterKeepsNew(conns: map<string, Conn>, stale: Conn, current: Conn, u: string)
    requires forall v :: v in conns ==> conns[v].user == v
    requires stale.user == current.user && stale != current
    ensures Unregistered(conns[current.user := current], stale) == conns[current.user := current]
    ensures u in Unregistered(conns, stale) <==> u in conns && conns[u] != stale
    ensures u in Unregistered(conns, stale) ==> Unregistered(conns, stale)[u] == conns[u]
  {
  }
}
