/** One connection's outbound side as a protocol: any number of Send and close callers, one write pump,
    two channels, one flag, interleaved one access at a time. */
module Conn {
  import opened Wrappers
  import opened Presence
  import Runs

  const OUTBOUND_BUFFER := 8

  /** The `sync.Once` around closing: the winner sets the flag, then closes the shutdown channel. */
  datatype Once = Fresh | SettingFlag | ClosingShutdown | Closed

  datatype Pump =
    | Looping
    | Writing(frame: Frame)
    | Failing                    // a write failed: the flag is set next
    | Draining
    | DrainWriting(last: Frame)
    | ClosingTransport
    | ClosingDone
    | Exited

  /** `accepted`, `taken`, `written`, `writeFailed` and `doubleClose` are history. */
  datatype State = State(
    out: seq<Frame>, flag: bool, shutdown: bool, done: bool, transportClosed: bool,
    once: Once, sends: map<nat, Frame>, pump: Pump, timerFired: bool,
    accepted: seq<Frame>, taken: seq<Frame>, written: seq<Frame>, writeFailed: bool, doubleClose: bool)

  const Open := State([], false, false, false, false, Fresh, map[], Looping, false, [], [], [], false, false)

  datatype Step =
    | SendMoves(id: nat, send: SendMove)
    | CloseMoves
    | PumpMoves(pump: PumpMove)
    | TimerFires

  /** ChecksFlag starts a Send, which returns at once if the flag is set; the others end it. */
  datatype SendMove = ChecksFlag(frame: Frame) | Enqueues | SeesDone | SeesFull

  datatype PumpMove = Takes | SeesShutdown | Succeeds | Fails | SetsFlag | EndsDrain | ClosesTransport | ClosesDone

  predicate SendEnabled(s: State, id: nat, move: SendMove) {
    match move
    case ChecksFlag(_) => id !in s.sends
    case Enqueues => id in s.sends && |s.out| < OUTBOUND_BUFFER
    case SeesDone => id in s.sends && s.done
    case SeesFull => id in s.sends && |s.out| >= OUTBOUND_BUFFER && !s.done
  }

  function Send(s: State, id: nat, move: SendMove): State
    requires SendEnabled(s, id, move)
  {
    match move
    case ChecksFlag(f) => if s.flag then s else s.(sends := s.sends[id := f])
    case Enqueues =>
      s.(out := s.out + [s.sends[id]], accepted := s.accepted + [s.sends[id]], sends := s.sends - {id})
    case SeesDone => s.(sends := s.sends - {id})
    case SeesFull => s.(sends := s.sends - {id})
  }

  /** Whoever wins the once goes through these moves; every other close() call changes nothing. */
  function Close(s: State): State {
    match s.once
    case Fresh => s.(once := SettingFlag)
    case SettingFlag => s.(once := ClosingShutdown, flag := true)
    case ClosingShutdown => s.(once := Closed, shutdown := true, doubleClose := s.doubleClose || s.shutdown)
    case Closed => s
  }

  predicate PumpEnabled(s: State, move: PumpMove) {
    match move
    case Takes => (s.pump.Looping? || s.pump.Draining?) && s.out != []
    case SeesShutdown => s.pump.Looping? && s.shutdown
    case Succeeds => s.pump.Writing? || s.pump.DrainWriting?
    case Fails => s.pump.Writing? || s.pump.DrainWriting?
    case SetsFlag => s.pump.Failing?
    // the default branch needs an empty buffer, the deadline branch a fired timer
    case EndsDrain => s.pump.Draining? && (s.out == [] || s.timerFired)
    case ClosesTransport => s.pump.ClosingTransport?
    case ClosesDone => s.pump.ClosingDone?
  }

  function PumpDo(s: State, move: PumpMove): State
    requires PumpEnabled(s, move)
  {
    match move
    case Takes =>
      s.(out := s.out[1..], taken := s.taken + [s.out[0]],
         pump := if s.pump.Looping? then Writing(s.out[0]) else DrainWriting(s.out[0]))
    case SeesShutdown => s.(pump := Draining)
    case Succeeds =>
      if s.pump.Writing? then s.(written := s.written + [s.pump.frame], pump := Looping)
      else s.(written := s.written + [s.pump.last], pump := Draining)
    case Fails => s.(writeFailed := true, pump := if s.pump.Writing? then Failing else Draining)
    case SetsFlag => s.(flag := true, pump := ClosingTransport)
    case EndsDrain => s.(pump := ClosingTransport)
    case ClosesTransport => s.(transportClosed := true, pump := ClosingDone)
    case ClosesDone => s.(done := true, pump := Exited, doubleClose := s.doubleClose || s.done)
  }

  predicate Enabled(s: State, step: Step) {
    match step
    case SendMoves(id, move) => SendEnabled(s, id, move)
    case CloseMoves => true
    case PumpMoves(move) => PumpEnabled(s, move)
    case TimerFires => s.pump.Draining? || s.pump.DrainWriting?
  }

  function Do(s: State, step: Step): State
    requires Enabled(s, step)
  {
    match step
    case SendMoves(id, move) => Send(s, id, move)
    case CloseMoves => Close(s)
    case PumpMoves(move) => PumpDo(s, move)
    case TimerFires => s.(timerFired := true)
  }

  ghost predicate IsRun(trace: seq<State>) {
    && trace != [] && trace[0] == Open
    && forall i :: 0 < i < |trace| ==> FollowsAt(trace, i)
  }

  ghost predicate FollowsAt(trace: seq<State>, i: int)
    requires 0 < i < |trace|
  {
    Next(trace[i - 1], trace[i])
  }

  ghost predicate Next(s: State, t: State) {
    exists step :: Enabled(s, step) && t == Do(s, step)
  }

  // ----- the invariant -----

  /** The frame the pump holds between taking it and finishing its write. */
  function InHand(p: Pump): seq<Frame> {
    match p
    case Writing(f) => [f]
    case DrainWriting(f) => [f]
    case _ => []
  }

  predicate PastDrain(p: Pump) {
    p.ClosingTransport? || p.ClosingDone? || p.Exited?
  }

  predicate Inv(s: State) {
    && |s.out| <= OUTBOUND_BUFFER
    && s.accepted == s.taken + s.out
    && (!s.writeFailed ==> s.taken == s.written + InHand(s.pump))
    && (s.once.ClosingShutdown? || s.once.Closed? ==> s.flag)
    && (s.shutdown <==> s.once.Closed?)
    && (s.pump.Draining? || s.pump.DrainWriting? ==> s.shutdown)
    && (s.pump.Failing? ==> s.writeFailed)
    && (PastDrain(s.pump) && !s.writeFailed ==> s.shutdown)
    && (PastDrain(s.pump) ==> s.flag)
    && (s.transportClosed <==> s.pump.ClosingDone? || s.pump.Exited?)
    && (s.done <==> s.pump.Exited?)
    && !s.doubleClose
  }

  lemma PumpKeepsInv(s: State, move: PumpMove)
    requires Inv(s) && PumpEnabled(s, move)
    ensures Inv(PumpDo(s, move))
  {
    var t := PumpDo(s, move);
    if move.Takes? {
      assert t.taken + t.out == s.taken + ([s.out[0]] + s.out[1..]) == s.taken + s.out;
    } else {
      assert t.taken == s.taken && t.out == s.out && t.accepted == s.accepted;
    }
  }

  lemma SendKeepsInv(s: State, id: nat, move: SendMove)
    requires Inv(s) && SendEnabled(s, id, move)
    ensures Inv(Send(s, id, move))
  {
  }

  lemma StepKeepsInv(s: State, step: Step)
    requires Inv(s) && Enabled(s, step)
    ensures Inv(Do(s, step))
  {
    match step
    case SendMoves(id, move) => SendKeepsInv(s, id, move);
    case PumpMoves(move) => PumpKeepsInv(s, move);
    case _ =>
  }

  lemma {:induction false} ReachableInv(trace: seq<State>, i: nat)
    requires IsRun(trace) && i < |trace|
    ensures Inv(trace[i])
  {
    if i > 0 {
      ReachableInv(trace, i - 1);
      assert FollowsAt(trace, i);
      var step :| Enabled(trace[i - 1], step) && trace[i] == Do(trace[i - 1], step);
      StepKeepsInv(trace[i - 1], step);
    }
  }

  // ----- delivery -----

  /** Frames leave in the order they were accepted: what was written, what is in hand and what is buffered make up
      everything accepted, until a write fails. Neither channel is ever closed twice. */
  lemma DeliveredInOrder(trace: seq<State>, i: nat)
    requires IsRun(trace) && i < |trace|
    ensures !trace[i].doubleClose && |trace[i].out| <= OUTBOUND_BUFFER
    ensures !trace[i].writeFailed ==>
              trace[i].accepted == trace[i].written + InHand(trace[i].pump) + trace[i].out
  {
    ReachableInv(trace, i);
  }

  /** A Send is under way from its flag check to its answer. */
  predicate Answers(s: State, t: State, id: nat) {
    id in s.sends && id !in t.sends
  }

  predicate Accepts(s: State, t: State, f: Frame) {
    t.accepted == s.accepted + [f] && |s.out| < 8
  }

  lemma StepAnswersRight(s: State, step: Step, id: nat)
    requires Enabled(s, step)
    ensures Answers(s, Do(s, step), id) ==>
              || Accepts(s, Do(s, step), s.sends[id])
              || (Do(s, step).accepted == s.accepted && (s.done || |s.out| >= 8))
    ensures id !in s.sends && id in Do(s, step).sends ==> !s.flag
    ensures Do(s, step).accepted == s.accepted || exists k :: Answers(s, Do(s, step), k)
  {
    match step
    case SendMoves(k, move) => SendAnswersRight(s, k, move);
    case CloseMoves => CloseLeavesSends(s);
    case PumpMoves(move) => PumpLeavesSends(s, move);
    case TimerFires =>
  }

  lemma SendAnswersRight(s: State, k: nat, move: SendMove)
    requires SendEnabled(s, k, move)
    ensures forall id :: Answers(s, Send(s, k, move), id) ==> id == k
    ensures Answers(s, Send(s, k, move), k) ==>
              || Accepts(s, Send(s, k, move), s.sends[k])
              || (Send(s, k, move).accepted == s.accepted && (s.done || |s.out| >= 8))
    ensures forall id :: id !in s.sends && id in Send(s, k, move).sends ==> !s.flag
    ensures Send(s, k, move).accepted == s.accepted || Answers(s, Send(s, k, move), k)
  {
    match move
    case ChecksFlag(_) =>
    case Enqueues =>
    case SeesDone =>
    case SeesFull =>
  }

  lemma PumpLeavesSends(s: State, move: PumpMove)
    requires PumpEnabled(s, move)
    ensures PumpDo(s, move).sends == s.sends && PumpDo(s, move).accepted == s.accepted
  {
    match move
    case Takes =>
    case SeesShutdown =>
    case Succeeds =>
    case Fails =>
    case SetsFlag =>
    case EndsDrain =>
    case ClosesTransport =>
    case ClosesDone =>
  }

  lemma CloseLeavesSends(s: State)
    ensures Close(s).sends == s.sends && Close(s).accepted == s.accepted
  {
    match s.once
    case Fresh =>
    case SettingFlag =>
    case ClosingShutdown =>
    case Closed =>
  }

  /** In every run a Send goes past its check only while the flag is not set, and is answered in one of two ways: its frame
      is accepted, and there was room for it; or it is not, and the transport was closed or eight frames were buffered.
      Nothing else is ever accepted. */
  lemma SendsAreAnsweredRight(trace: seq<State>, i: nat, id: nat)
    requires IsRun(trace) && 0 < i < |trace|
    ensures var s, t := trace[i - 1], trace[i];
            && (Answers(s, t, id) ==>
                  || Accepts(s, t, s.sends[id])
                  || (t.accepted == s.accepted && (s.transportClosed || |s.out| == 8)))
            && (id !in s.sends && id in t.sends ==> !s.flag)
            && (t.accepted == s.accepted || exists k :: Answers(s, t, k))
  {
    ReachableInv(trace, i - 1);
    assert FollowsAt(trace, i);
    var step :| Enabled(trace[i - 1], step) && trace[i] == Do(trace[i - 1], step);
    StepAnswersRight(trace[i - 1], step, id);
  }

  /** What no step takes back. */
  predicate Later(s: State, t: State) {
    && s.accepted <= t.accepted && s.written <= t.written
    && (s.flag ==> t.flag) && (s.shutdown ==> t.shutdown)
    && (s.writeFailed ==> t.writeFailed) && (s.timerFired ==> t.timerFired)
  }

  lemma SendOnlyAdds(s: State, id: nat, move: SendMove)
    requires SendEnabled(s, id, move)
    ensures Later(s, Send(s, id, move))
  {
  }

  lemma PumpOnlyAdds(s: State, move: PumpMove)
    requires PumpEnabled(s, move)
    ensures Later(s, PumpDo(s, move))
  {
    match move
    case Takes =>
    case SeesShutdown =>
    case Succeeds =>
    case Fails =>
    case SetsFlag =>
    case EndsDrain =>
    case ClosesTransport =>
    case ClosesDone =>
  }

  lemma CloseOnlyAdds(s: State)
    ensures Later(s, Close(s))
  {
    match s.once
    case Fresh =>
    case SettingFlag =>
    case ClosingShutdown =>
    case Closed =>
  }

  lemma StepOnlyAdds(s: State, step: Step)
    requires Enabled(s, step)
    ensures Later(s, Do(s, step))
  {
    match step
    case SendMoves(id, move) => SendOnlyAdds(s, id, move);
    case CloseMoves => CloseOnlyAdds(s);
    case PumpMoves(move) => PumpOnlyAdds(s, move);
    case TimerFires => assert Do(s, step).accepted == s.accepted && Do(s, step).written == s.written;
  }

  lemma {:induction false} RunOnlyAdds(trace: seq<State>, i: nat, j: nat)
    requires IsRun(trace) && i <= j < |trace|
    ensures Later(trace[i], trace[j])
  {
    if i < j {
      RunOnlyAdds(trace, i, j - 1);
      assert FollowsAt(trace, j);
      var step :| Enabled(trace[j - 1], step) && trace[j] == Do(trace[j - 1], step);
      StepOnlyAdds(trace[j - 1], step);
    }
  }

  /** The one step that brings the pump past draining with nothing lost finds the buffer empty. */
  lemma DrainEndsFlushed(s: State, step: Step)
    requires Inv(s) && Enabled(s, step)
    requires !PastDrain(s.pump) && PastDrain(Do(s, step).pump)
    requires !Do(s, step).writeFailed && !Do(s, step).timerFired
    ensures s.accepted == s.written && Do(s, step).written == s.written
  {
    assert step.PumpMoves? && step.pump.EndsDrain? && s.out == [] && InHand(s.pump) == [];
  }

  lemma {:induction false} FlushedIfBeforeDrainEnds(trace: seq<State>, i: nat, j: nat)
    requires IsRun(trace) && i <= j < |trace|
    requires !PastDrain(trace[i].pump)
    requires PastDrain(trace[j].pump) && !trace[j].writeFailed && !trace[j].timerFired
    ensures trace[i].accepted <= trace[j].written
  {
    assert i < j;
    var s := trace[j - 1];
    assert FollowsAt(trace, j);
    var step :| Enabled(s, step) && trace[j] == Do(s, step);
    StepOnlyAdds(s, step);
    if PastDrain(s.pump) {
      FlushedIfBeforeDrainEnds(trace, i, j - 1);
    } else {
      ReachableInv(trace, j - 1);
      RunOnlyAdds(trace, i, j - 1);
      DrainEndsFlushed(s, step);
    }
  }

  /** The same frames taken and written. */
  predicate WritesNothing(s: State, t: State) {
    t.written == s.written && t.taken == s.taken
  }

  lemma SendLeavesPump(s: State, id: nat, move: SendMove)
    requires SendEnabled(s, id, move)
    ensures WritesNothing(s, Send(s, id, move)) && Send(s, id, move).pump == s.pump
    ensures Send(s, id, move).writeFailed == s.writeFailed
  {
    match move
    case ChecksFlag(_) =>
    case Enqueues =>
    case SeesDone =>
    case SeesFull =>
  }

  lemma CloseLeavesPump(s: State)
    ensures WritesNothing(s, Close(s)) && Close(s).pump == s.pump && Close(s).writeFailed == s.writeFailed
  {
    match s.once
    case Fresh =>
    case SettingFlag =>
    case ClosingShutdown =>
    case Closed =>
  }

  /** A write failed, or the drain is over. */
  predicate WindsUp(p: Pump) {
    p.Failing? || PastDrain(p)
  }

  lemma ClosingPumpWritesNothing(s: State, move: PumpMove)
    requires PumpEnabled(s, move) && WindsUp(s.pump)
    ensures WritesNothing(s, PumpDo(s, move)) && PastDrain(PumpDo(s, move).pump)
  {
    assert move.SetsFlag? || move.ClosesTransport? || move.ClosesDone?;
  }

  /** From there on the pump only closes up. */
  lemma NothingWrittenWindingUp(s: State, step: Step)
    requires Enabled(s, step) && WindsUp(s.pump)
    ensures WritesNothing(s, Do(s, step)) && WindsUp(Do(s, step).pump)
    ensures PastDrain(s.pump) ==> PastDrain(Do(s, step).pump)
  {
    match step
    case SendMoves(id, move) => SendLeavesPump(s, id, move);
    case CloseMoves => CloseLeavesPump(s);
    case PumpMoves(move) => ClosingPumpWritesNothing(s, move);
    case TimerFires =>
  }

  lemma NextWritesNothing(s: State, t: State)
    requires Next(s, t) && WindsUp(s.pump)
    ensures WritesNothing(s, t) && WindsUp(t.pump) && (PastDrain(s.pump) ==> PastDrain(t.pump))
  {
    var step :| Enabled(s, step) && t == Do(s, step);
    NothingWrittenWindingUp(s, step);
  }

  lemma {:induction false} WrittenIsFinal(trace: seq<State>, i: nat, j: nat)
    requires IsRun(trace) && i <= j < |trace| && WindsUp(trace[i].pump)
    ensures WritesNothing(trace[i], trace[j]) && WindsUp(trace[j].pump)
    ensures PastDrain(trace[i].pump) ==> PastDrain(trace[j].pump)
  {
    if i < j {
      WrittenIsFinal(trace, i, j - 1);
      assert FollowsAt(trace, j);
      NextWritesNothing(trace[j - 1], trace[j]);
    }
  }

  // ----- after a failed write -----

  predicate StopsAfterFailure(s: State) {
    s.writeFailed ==> !s.pump.Looping? && !s.pump.Writing?
  }

  lemma PumpStopsAfterFailure(s: State, move: PumpMove)
    requires StopsAfterFailure(s) && PumpEnabled(s, move)
    ensures StopsAfterFailure(PumpDo(s, move))
    ensures s.pump.Writing? && PumpDo(s, move).writeFailed ==> PumpDo(s, move).pump.Failing?
  {
    match move
    case Takes =>
    case SeesShutdown =>
    case Succeeds =>
    case Fails =>
    case SetsFlag =>
    case EndsDrain =>
    case ClosesTransport =>
    case ClosesDone =>
  }

  lemma StepStopsAfterFailure(s: State, step: Step)
    requires StopsAfterFailure(s) && Enabled(s, step)
    ensures StopsAfterFailure(Do(s, step))
    ensures s.pump.Writing? && Do(s, step).writeFailed ==> Do(s, step).pump.Failing?
  {
    match step
    case SendMoves(id, move) => SendLeavesPump(s, id, move);
    case CloseMoves => CloseLeavesPump(s);
    case PumpMoves(move) => PumpStopsAfterFailure(s, move);
    case TimerFires =>
  }

  lemma {:induction false} ReachableStopsAfterFailure(trace: seq<State>, i: nat)
    requires IsRun(trace) && i < |trace|
    ensures StopsAfterFailure(trace[i])
    ensures i > 0 && trace[i - 1].pump.Writing? && trace[i].writeFailed ==> trace[i].pump.Failing?
  {
    if i > 0 {
      ReachableStopsAfterFailure(trace, i - 1);
      assert FollowsAt(trace, i);
      var step :| Enabled(trace[i - 1], step) && trace[i] == Do(trace[i - 1], step);
      StepStopsAfterFailure(trace[i - 1], step);
    }
  }

  /** In every run a write that fails outside the drain is the last: no frame is taken or written after it, and by the
      time the transport is closed new Sends are refused. */
  lemma FailedWriteIsTheLast(trace: seq<State>, i: nat, j: nat)
    requires IsRun(trace) && 0 < i <= j < |trace| && trace[i - 1].pump.Writing? && trace[i].writeFailed
    ensures trace[j].taken == trace[i].taken && trace[j].written == trace[i].written
    ensures trace[j].pump.Failing? || (trace[j].flag && PastDrain(trace[j].pump))
  {
    ReachableStopsAfterFailure(trace, i);
    WrittenIsFinal(trace, i, j);
    ReachableInv(trace, j);
  }

  predicate InDrain(p: Pump) {
    p.Draining? || p.DrainWriting?
  }

  lemma DrainMoveGoesOn(s: State, move: PumpMove)
    requires Inv(s) && PumpEnabled(s, move) && InDrain(s.pump)
    ensures var t := PumpDo(s, move);
            InDrain(t.pump) || (PastDrain(t.pump) && (t.timerFired || t.taken == s.accepted))
  {
    match move
    case Takes =>
    case Succeeds =>
    case Fails =>
    case EndsDrain =>
  }

  lemma DrainStepGoesOn(s: State, step: Step)
    requires Inv(s) && Enabled(s, step) && InDrain(s.pump)
    ensures var t := Do(s, step);
            InDrain(t.pump) || (PastDrain(t.pump) && (t.timerFired || t.taken == s.accepted))
  {
    match step
    case SendMoves(id, move) => SendLeavesPump(s, id, move);
    case CloseMoves => CloseLeavesPump(s);
    case PumpMoves(move) => DrainMoveGoesOn(s, move);
    case TimerFires =>
  }

  /** A write that fails in the drain does not end it: unless the timer fires, the drain ends only when every frame
      accepted at an earlier moment of it has been taken and tried. */
  lemma {:induction false} DrainTriesEverything(trace: seq<State>, i: nat, j: nat)
    requires IsRun(trace) && i <= j < |trace| && InDrain(trace[i].pump) && !trace[j].timerFired
    ensures InDrain(trace[j].pump) || (PastDrain(trace[j].pump) && trace[i].accepted <= trace[j].taken)
  {
    if i < j {
      assert FollowsAt(trace, j);
      var step :| Enabled(trace[j - 1], step) && trace[j] == Do(trace[j - 1], step);
      StepOnlyAdds(trace[j - 1], step);
      DrainTriesEverything(trace, i, j - 1);
      if InDrain(trace[j - 1].pump) {
        ReachableInv(trace, j - 1);
        RunOnlyAdds(trace, i, j - 1);
        DrainStepGoesOn(trace[j - 1], step);
      } else {
        NothingWrittenWindingUp(trace[j - 1], step);
      }
    }
  }

  /** Flush before close: if no write failed and the drain timer did not fire, then once the pump is past draining,
      and so before the transport is closed, everything accepted up to a moment has been written exactly if the drain
      had not ended at that moment, or had already written it. So every frame accepted before the drain ended is
      written, and in particular every one accepted before close() began. */
  lemma FlushedBeforeClose(trace: seq<State>, i: nat, j: nat)
    requires IsRun(trace) && i <= j < |trace|
    requires PastDrain(trace[j].pump) && !trace[j].writeFailed && !trace[j].timerFired
    ensures trace[i].accepted <= trace[j].written
            <==> (PastDrain(trace[i].pump) ==> trace[i].accepted <= trace[i].written)
  {
    if PastDrain(trace[i].pump) {
      WrittenIsFinal(trace, i, j);
    } else {
      FlushedIfBeforeDrainEnds(trace, i, j);
    }
  }

  /** The frames the condition leaves out are lost: a Send that read the flag before it was set, but enqueues after the
      drain loop found the buffer empty, returns success for a frame that nobody will write. */
  lemma LateSendIsAcceptedAndLost(f: Frame)
    ensures exists s :: Reachable(s) && LosesAcceptedFrame(s, f)
  {
    var s1, s2, s3, s4 := SendThenClose(f);
    var s5, s6, s7 := DrainThenEnqueue(s4, f);
    Runs.LeadsToItself(Next, Open);
    ReachNext(Open, s1);
    ReachNext(s1, s2);
    ReachNext(s2, s3);
    ReachNext(s3, s4);
    ReachNext(s4, s5);
    ReachNext(s5, s6);
    ReachNext(s6, s7);
  }

  /** Comes up in some run. */
  ghost predicate Reachable(s: State) {
    Runs.Leads(Next, Open, s)
  }

  lemma ReachNext(s: State, t: State)
    requires Reachable(s) && Next(s, t)
    ensures Reachable(t)
  {
    Runs.LeadsOn(Next, Open, s, t);
  }

  lemma SendThenClose(f: Frame) returns (s1: State, s2: State, s3: State, s4: State)
    ensures Next(Open, s1) && Next(s1, s2) && Next(s2, s3) && Next(s3, s4)
    ensures s4 == Open.(sends := map[0 := f], once := Closed, flag := true, shutdown := true)
  {
    s1 := Do(Open, SendMoves(0, ChecksFlag(f)));
    s2 := Do(s1, CloseMoves);
    s3 := Do(s2, CloseMoves);
    s4 := Do(s3, CloseMoves);
  }

  lemma DrainThenEnqueue(s: State, f: Frame) returns (s5: State, s6: State, s7: State)
    requires s == Open.(sends := map[0 := f], once := Closed, flag := true, shutdown := true)
    ensures Next(s, s5) && Next(s5, s6) && Next(s6, s7) && LosesAcceptedFrame(s7, f)
  {
    s5 := Do(s, PumpMoves(SeesShutdown));
    s6 := Do(s5, PumpMoves(EndsDrain));
    s7 := Do(s6, SendMoves(0, Enqueues));
  }

  predicate LosesAcceptedFrame(s: State, f: Frame) {
    PastDrain(s.pump) && !s.writeFailed && !s.timerFired && s.accepted == [f] && s.written == []
  }

  /** The transport is only closed by the pump, after the drain or after a failed write. */
  lemma TransportClosedLast(trace: seq<State>, i: nat)
    requires IsRun(trace) && i < |trace| && trace[i].transportClosed
    ensures PastDrain(trace[i].pump) && (trace[i].shutdown || trace[i].writeFailed)
  {
    ReachableInv(trace, i);
  }

  /** What the drain loop can still find: the buffered frames, and the Sends already past the flag check. */
  function ToDrain(s: State): nat {
    |s.out| + |s.sends|
  }

  lemma RemovingOne(m: map<nat, Frame>, id: nat)
    requires id in m
    ensures |m - {id}| == |m| - 1
  {
    assert (m - {id}).Keys == m.Keys - {id};
    assert |m.Keys| == |m| && |(m - {id}).Keys| == |m - {id}|;
  }

  /** With the flag set, no frame is accepted that was not under way, none is taken that was not buffered. */
  predicate Draws(s: State, t: State) {
    && |t.taken| + ToDrain(t) <= |s.taken| + ToDrain(s)
    && |t.accepted| + |t.sends| <= |s.accepted| + |s.sends|
  }

  lemma SendDraws(s: State, id: nat, move: SendMove)
    requires SendEnabled(s, id, move) && s.flag
    ensures Draws(s, Send(s, id, move))
  {
    if !move.ChecksFlag? { RemovingOne(s.sends, id); }
  }

  lemma TakingDraws(s: State)
    requires PumpEnabled(s, Takes)
    ensures Draws(s, PumpDo(s, Takes))
  {
  }

  lemma OtherMovesDrawNothing(s: State, move: PumpMove)
    requires PumpEnabled(s, move) && !move.Takes?
    ensures var t := PumpDo(s, move);
            t.taken == s.taken && t.out == s.out && t.sends == s.sends && t.accepted == s.accepted
  {
    match move
    case SeesShutdown =>
    case Succeeds =>
    case Fails =>
    case SetsFlag =>
    case EndsDrain =>
    case ClosesTransport =>
    case ClosesDone =>
  }

  lemma PumpDraws(s: State, move: PumpMove)
    requires PumpEnabled(s, move)
    ensures Draws(s, PumpDo(s, move))
  {
    if move.Takes? { TakingDraws(s); } else { OtherMovesDrawNothing(s, move); }
  }

  lemma CloseDraws(s: State)
    ensures Draws(s, Close(s))
  {
    match s.once
    case Fresh =>
    case SettingFlag =>
    case ClosingShutdown =>
    case Closed =>
  }

  lemma StepDraws(s: State, step: Step)
    requires Enabled(s, step) && s.flag
    ensures Draws(s, Do(s, step))
  {
    match step
    case SendMoves(id, move) => SendDraws(s, id, move);
    case PumpMoves(move) => PumpDraws(s, move);
    case CloseMoves => CloseDraws(s);
    case TimerFires =>
  }

  /** Closing ends: from the moment the flag is set, the pump takes at most as many more frames as were buffered
      or under way, so its drain loop turns that often at most; and no other Send is accepted any more. */
  lemma {:induction false} DrainIsBounded(trace: seq<State>, i: nat, j: nat)
    requires IsRun(trace) && i <= j < |trace| && trace[i].flag
    ensures Draws(trace[i], trace[j])
  {
    if i < j {
      DrainIsBounded(trace, i, j - 1);
      RunOnlyAdds(trace, i, j - 1);
      assert FollowsAt(trace, j);
      var step :| Enabled(trace[j - 1], step) && trace[j] == Do(trace[j - 1], step);
      StepDraws(trace[j - 1], step);
    }
  }

  /** What the pump does next of its own accord when its writes succeed. */
  function PumpNext(s: State): (move: PumpMove)
    requires s.shutdown && !s.pump.Exited?
  {
    match s.pump
    case Looping => SeesShutdown
    case Writing(_) => Succeeds
    case Failing => SetsFlag
    case Draining => if s.out == [] then EndsDrain else Takes
    case DrainWriting(_) => Succeeds
    case ClosingTransport => ClosesTransport
    case ClosingDone => ClosesDone
  }

  /** How far the pump is from its exit, when nobody else moves. */
  function PumpDistance(s: State): nat {
    match s.pump
    case Looping => 2 * |s.out| + 4
    case Writing(_) => 2 * |s.out| + 5
    case Failing => 3
    case Draining => 2 * |s.out| + 3
    case DrainWriting(_) => 2 * |s.out| + 4
    case ClosingTransport => 2
    case ClosingDone => 1
    case Exited => 0
  }

  lemma RunningPumpMoves(s: State)
    requires s.shutdown && (s.pump.Looping? || s.pump.Writing? || s.pump.Failing?)
    ensures PumpEnabled(s, PumpNext(s)) && PumpDistance(PumpDo(s, PumpNext(s))) < PumpDistance(s)
  {
    match s.pump
    case Looping =>
    case Writing(_) =>
    case Failing =>
  }

  lemma DrainingPumpMoves(s: State)
    requires s.shutdown && (s.pump.Draining? || s.pump.DrainWriting?)
    ensures PumpEnabled(s, PumpNext(s)) && PumpDistance(PumpDo(s, PumpNext(s))) < PumpDistance(s)
  {
    match s.pump
    case Draining =>
    case DrainWriting(_) =>
  }

  /** Once shutdown is signalled the pump is never stuck: until it has exited it has a step of its own, and each one
      brings the exit nearer, whatever is buffered. */
  lemma PumpIsNeverStuck(s: State)
    requires s.shutdown && !s.pump.Exited?
    ensures PumpEnabled(s, PumpNext(s))
    ensures PumpDistance(PumpDo(s, PumpNext(s))) < PumpDistance(s)
  {
    if s.pump.Draining? || s.pump.DrainWriting? {
      DrainingPumpMoves(s);
    } else if s.pump.Looping? || s.pump.Writing? || s.pump.Failing? {
      RunningPumpMoves(s);
    }
  }

  /** Nothing accepted is lost so far. */
  predicate Lossless(s: State) {
    !s.writeFailed && (PastDrain(s.pump) ==> s.written == s.accepted)
  }

  lemma PumpNextLosesNothing(s: State)
    requires Inv(s) && s.shutdown && !s.pump.Exited? && Lossless(s)
    ensures Lossless(PumpDo(s, PumpNext(s)))
    ensures PumpDo(s, PumpNext(s)).accepted == s.accepted
  {
    var t := PumpDo(s, PumpNext(s));
    if s.pump.Draining? && s.out == [] {
      assert s.accepted == s.taken == s.written;
    }
    assert !t.writeFailed && t.accepted == s.accepted;
  }

  /** Left alone after close(), the pump closes the transport and exits, having written everything accepted unless a
      write had failed before. */
  lemma {:induction false} PumpExits(s: State) returns (end: State)
    requires s.shutdown && Inv(s)
    ensures Inv(end) && end.pump.Exited? && end.transportClosed && end.done
    ensures Lossless(s) ==> end.written == s.accepted
    decreases PumpDistance(s)
  {
    if s.pump.Exited? {
      end := s;
    } else {
      PumpIsNeverStuck(s);
      var t := PumpDo(s, PumpNext(s));
      PumpKeepsInv(s, PumpNext(s));
      if Lossless(s) { PumpNextLosesNothing(s); }
      end := PumpExits(t);
    }
  }

  /** However much is still buffered, once the timer has fired the pump may end the drain, and then closes the transport
      and exits with nothing more written. */
  lemma TimerEndsDrain(s: State) returns (end: State)
    requires s.pump.Draining?
    ensures Runs.Leads(Next, s, end)
    ensures end.pump.Exited? && end.transportClosed && end.done && WritesNothing(s, end) && end.out == s.out
  {
    var fired := Do(s, TimerFires);
    var ended := Do(fired, PumpMoves(EndsDrain));
    var closed := Do(ended, PumpMoves(ClosesTransport));
    end := Do(closed, PumpMoves(ClosesDone));
    Runs.LeadsToItself(Next, s);
    Runs.LeadsOn(Next, s, s, fired);
    assert Enabled(fired, PumpMoves(EndsDrain));
    Runs.LeadsOn(Next, s, fired, ended);
    assert Enabled(ended, PumpMoves(ClosesTransport));
    Runs.LeadsOn(Next, s, ended, closed);
    assert Enabled(closed, PumpMoves(ClosesDone));
    Runs.LeadsOn(Next, s, closed, end);
  }
}
