/** What the request queue guarantees in every run. */
module QueueLaws {
  import opened Models
  import opened Cache
  import opened RequestQueue

  predicate HeldBy(s: State, w: nat, t: nat) {
    w < |s.workers| && Serves(s.workers[w], t)
  }

  ghost predicate Held(s: State, t: nat) {
    exists w: nat :: HeldBy(s, w, t)
  }

  predicate Answered(s: State, t: nat) {
    t < |s.calls| && s.calls[t].sent == 1
  }

  /** In every run the buffer never exceeds its capacity, requests leave it in
      acceptance order, and every accepted request is in exactly one place: in the
      buffer, held by exactly one worker, or answered exactly once. */
  lemma EachRequestInOnePlace(handler: Handler, capacity: nat, workers: nat, s: State, t: nat)
    requires Reachable(handler, capacity, workers, s) && t < |s.calls|
    ensures |s.buffer| <= s.capacity
    ensures t in s.buffer <==> t >= |s.calls| - |s.buffer|
    ensures t in s.buffer ==> !Held(s, t) && !Answered(s, t)
    ensures t !in s.buffer ==> (Held(s, t) <==> !Answered(s, t))
    ensures forall w: nat, v: nat | HeldBy(s, w, t) && HeldBy(s, v, t) :: w == v
    ensures s.calls[t].sent <= 1
  {
    ReachableInvariant(handler, capacity, workers, s);
    assert CallOk(handler, s.history, s.calls[t], Pending(s, t));
    forall w: nat | HeldBy(s, w, t)
      ensures t < |s.owner| && s.owner[t] == w
    {
      assert WorkerOk(handler, s, w);
    }
    if t < |s.owner| && Pending(s, t) {
      assert HeldBy(s, s.owner[t], t);
    }
    if t >= |s.owner| {
      assert s.buffer[t - |s.owner|] == t;
    }
    hide Genuine, ReceivedOk, CountersOk, FlagsOk, HistoryOk, Reachable;
  }

  /** A worker that has a reply always finds the slot empty: the branch that gives up
      on sending is never taken, and the send after a panic never blocks. */
  lemma RepliesAreAlwaysSent(handler: Handler, capacity: nat, workers: nat, s: State, w: nat)
    requires Reachable(handler, capacity, workers, s) && w < |s.workers|
    ensures s.lost == 0
    ensures s.workers[w].Answering? ==> CanWork(s, w, Post) && SlotFree(s, s.workers[w].ticket)
    ensures s.workers[w].Recovering? ==> CanWork(s, w, PostError)
  {
    ReachableInvariant(handler, capacity, workers, s);
    assert WorkerOk(handler, s, w);
    if s.workers[w].Answering? || s.workers[w].Recovering? {
      PostIntoFreeSlot(handler, s, w);
    }
    hide Genuine, CallOk, CountersOk, HistoryOk, Reachable;
  }

  /** A caller only ever receives the answer to its own request, computed from a
      state the store had between the call and the return, or the substitute for a
      handler that panicked. */
  lemma CallersGetTheirOwnAnswer(handler: Handler, capacity: nat, workers: nat, s: State, t: nat)
    requires Reachable(handler, capacity, workers, s) && t < |s.calls| && s.calls[t].stage.Received?
    ensures
      var call := s.calls[t];
      && call.stage.until <= |s.history|
      && match call.stage.reply.seen
         case None => call.stage.reply.result == Err(InternalServerError)
         case Some(k) =>
           call.since <= k < call.stage.until
           && call.stage.reply.result == handler(s.history[k], call.request)
  {
    ReachableInvariant(handler, capacity, workers, s);
    assert CallOk(handler, s.history, s.calls[t], Pending(s, t));
    hide CountersOk, FlagsOk, HistoryOk, WorkerOk, ChannelOk, Pending, Reachable;
  }

  // ----- stopping -----

  /** Once Stop has returned no worker holds a request: everything accepted has been
      answered, or is left in the buffer for good. */
  lemma AfterStop(handler: Handler, capacity: nat, workers: nat, s: State, t: nat)
    requires Reachable(handler, capacity, workers, s) && s.stopped && t < |s.calls|
    ensures Answered(s, t) <==> t !in s.buffer
    ensures t in s.buffer ==> s.calls[t].slot.None? && !s.calls[t].stage.Received?
    ensures s.processed + |s.buffer| == |s.calls|
    ensures forall w: nat :: !HeldBy(s, w, t)
  {
    EachRequestInOnePlace(handler, capacity, workers, s, t);
    ReachableInvariant(handler, capacity, workers, s);
    assert CallOk(handler, s.history, s.calls[t], Pending(s, t));
    NobodyBusy(s.workers);
    hide Genuine, ReceivedOk, WorkerOk, HistoryOk, ChannelOk, Reachable, Busy, Pending;
    assert |s.owner| + |s.buffer| == |s.calls| by { assert ChannelOk(s); Lengths(s); }
  }

  /** The second case happens: the only worker leaves before it takes the request. */
  lemma StopMayStrandARequest(handler: Handler, request: Request)
    ensures exists s :: Reachable(handler, 1, 1, s) && s.stopped && s.buffer == [0] && |s.calls| == 1
  {
    var s0 := Init(1, 1);
    var s2 := s0.(calls := [NewCall(s0, request)], buffer := [0], cancelled := true);
    var s3 := s2.(workers := s2.workers[0 := Exited]);
    var s4 := s3.(closed := true);
    var s5 := s4.(stopped := true);
    SubmitThenCancel(handler, request);
    LeaveThenReturn(handler, s2);
    hide Init, Execute;
    var early := [Submit(request)] + [Cancel];
    OneStep(handler, s0, early, s2, Work(0, ExitCancelled));
    OneStep(handler, s0, early + [Work(0, ExitCancelled)], s3, Close);
    OneStep(handler, s0, early + [Work(0, ExitCancelled)] + [Close], s4, StopReturns);
    hide Next, Enabled;
    assert Reachable(handler, 1, 1, s5);
  }

  lemma SubmitThenCancel(handler: Handler, request: Request)
    ensures
      var s0 := Init(1, 1);
      Execute(handler, s0, [Submit(request)] + [Cancel])
      == Some(s0.(calls := [NewCall(s0, request)], buffer := [0], cancelled := true))
  {
    hide Execute, CanWork, CanAct, AfterMove, AfterAct, Apply;
    var s0 := Init(1, 1);
    ExecuteNothing(handler, s0);
    OneStep(handler, s0, [], s0, Submit(request));
    assert [] + [Submit(request)] == [Submit(request)];
    var s1 := Next(handler, s0, Submit(request));
    assert s1.calls == [NewCall(s0, request)] && s1.buffer == [0];
    OneStep(handler, s0, [Submit(request)], s1, Cancel);
  }

  /** The worker sees the cancelled context; then Stop closes the channel and returns. */
  lemma LeaveThenReturn(handler: Handler, s: State)
    requires |s.workers| == 1 && s.workers[0].Idle? && s.cancelled && !s.closed && !s.stopped
    ensures Enabled(s, Work(0, ExitCancelled))
    ensures Next(handler, s, Work(0, ExitCancelled)) == s.(workers := s.workers[0 := Exited])
    ensures Enabled(s.(workers := s.workers[0 := Exited]), Close)
    ensures
      var u := s.(workers := s.workers[0 := Exited], closed := true);
      && Next(handler, s.(workers := s.workers[0 := Exited]), Close) == u
      && Enabled(u, StopReturns) && Next(handler, u, StopReturns) == u.(stopped := true)
  {
  }

  lemma ExecuteNothing(handler: Handler, s: State)
    ensures Execute(handler, s, []) == Some(s)
  {
  }

  lemma OneStep(handler: Handler, s: State, steps: seq<Step>, t: State, step: Step)
    requires Execute(handler, s, steps) == Some(t) && Enabled(t, step)
    ensures Execute(handler, s, steps + [step]) == Some(Next(handler, t, step))
  {
    assert (steps + [step])[..|steps|] == steps;
  }

  lemma Lengths(s: State)
    requires ChannelOk(s)
    ensures |s.owner| + |s.buffer| == |s.calls|
  {
  }

  lemma {:induction false} NobodyBusy(workers: seq<Phase>)
    requires forall w :: 0 <= w < |workers| ==> workers[w].Idle? || workers[w].Exited?
    ensures Busy(workers) == 0
  {
    if workers != [] {
      NobodyBusy(workers[..|workers| - 1]);
    }
  }

  /** Ways in which sending a request can end. */
  predicate IsSubmission(step: Step) {
    step.Submit? || step.Handoff? || step.Refuse? || step.SubmitPanics?
  }

  /** From the moment Stop closes the channel, whatever happens, no request is
      accepted or refused any more: every further call panics. */
  lemma {:induction false} ClosedForGood(handler: Handler, s: State, steps: seq<Step>, t: State)
    requires Execute(handler, s, steps) == Some(t) && s.closed
    ensures t.closed && |t.calls| == |s.calls| && t.refused == s.refused && |t.buffer| <= |s.buffer|
    ensures forall i | 0 <= i < |steps| && IsSubmission(steps[i]) :: steps[i] == SubmitPanics
  {
    hide Enabled, Next, Execute, IsSubmission;
    LastStep(handler, s, steps, t);
    if steps != [] {
      var n := |steps| - 1;
      var u := Execute(handler, s, steps[..n]).value;
      ClosedForGood(handler, s, steps[..n], u);
      ClosedStep(handler, u, steps[n]);
    }
  }

  /** A run is its last step after the run before it. */
  lemma LastStep(handler: Handler, s: State, steps: seq<Step>, t: State)
    requires Execute(handler, s, steps) == Some(t)
    ensures steps == [] ==> t == s
    ensures
      steps != [] ==>
        var n := |steps| - 1;
        && Execute(handler, s, steps[..n]).Some?
        && Enabled(Execute(handler, s, steps[..n]).value, steps[n])
        && t == Next(handler, Execute(handler, s, steps[..n]).value, steps[n])
  {
    hide Enabled, Next;
  }

  lemma ClosedStep(handler: Handler, s: State, step: Step)
    requires Enabled(s, step) && s.closed
    ensures
      var t := Next(handler, s, step);
      && t.closed && |t.calls| == |s.calls| && t.refused == s.refused && |t.buffer| <= |s.buffer|
      && (IsSubmission(step) ==> step == SubmitPanics)
  {
    hide Apply, AllExited, CanWork, CanAct, AfterMove, AfterAct;
    match step
    case Work(w, move) => ClosedMove(handler, s, w, move);
    case Await(t, act) => ClosedAct(s, t, act);
    case _ =>
  }

  lemma ClosedMove(handler: Handler, s: State, w: nat, move: Move)
    requires CanWork(s, w, move)
    ensures
      var t := AfterMove(handler, s, w, move);
      t.closed == s.closed && |t.calls| == |s.calls| && t.refused == s.refused && |t.buffer| <= |s.buffer|
  {
  }

  lemma ClosedAct(s: State, t: nat, act: Act)
    requires CanAct(s, t, act)
    ensures
      var u := AfterAct(s, t, act);
      u.closed == s.closed && |u.calls| == |s.calls| && u.refused == s.refused && u.buffer == s.buffer
  {
  }

  /** How far a worker is from having left. */
  function Distance(phase: Phase): nat {
    match phase
    case Holding(_) => 4
    case Answering(_, _) => 3
    case Recovering(_) => 3
    case Counting => 2
    case Idle => 1
    case Exited => 0
  }

  function Distances(workers: seq<Phase>): nat {
    if workers == [] then 0 else Distances(workers[..|workers| - 1]) + Distance(workers[|workers| - 1])
  }

  /** Bounds the moves that the workers can still make. */
  function Measure(s: State): nat {
    Distances(s.workers) + 4 * |s.buffer|
  }

  lemma {:induction false} DistancesUpdate(workers: seq<Phase>, w: nat, phase: Phase)
    requires w < |workers|
    ensures Distances(workers[w := phase]) == Distances(workers) + Distance(phase) - Distance(workers[w])
  {
    var n := |workers| - 1;
    if w == n {
      assert workers[w := phase][..n] == workers[..n];
    } else {
      DistancesUpdate(workers[..n], w, phase);
      assert workers[w := phase][..n] == workers[..n][w := phase];
    }
  }

  lemma MoveGetsCloser(handler: Handler, s: State, w: nat, move: Move)
    requires CanWork(s, w, move)
    ensures Measure(AfterMove(handler, s, w, move)) < Measure(s)
  {
    var s' := AfterMove(handler, s, w, move);
    MoveOfOne(handler, s, w, move);
    DistancesUpdate(s.workers, w, s'.workers[w]);
    hide Distances, AfterMove, CanWork, Distance;
  }

  /** A move changes one phase, and brings that worker closer unless it takes a request. */
  lemma MoveOfOne(handler: Handler, s: State, w: nat, move: Move)
    requires CanWork(s, w, move)
    ensures
      var s' := AfterMove(handler, s, w, move);
      && s'.workers == s.workers[w := s'.workers[w]]
      && if move.Take? then
           |s'.buffer| < |s.buffer| && Distance(s'.workers[w]) <= Distance(s.workers[w]) + 3
         else
           s'.buffer == s.buffer && Distance(s'.workers[w]) < Distance(s.workers[w])
  {
  }

  /** A worker of a cancelled queue is never stuck. */
  lemma SomeoneMoves(handler: Handler, s: State, w: nat) returns (move: Move)
    requires Invariant(handler, s) && s.cancelled && w < |s.workers| && !s.workers[w].Exited?
    ensures CanWork(s, w, move) && !move.Take?
  {
    assert WorkerOk(handler, s, w);
    if s.workers[w].Answering? || s.workers[w].Recovering? {
      PostIntoFreeSlot(handler, s, w);
    }
    match s.workers[w] {
      case Idle => move := ExitCancelled;
      case Holding(_) => move := HandlerPanics;
      case Answering(_, _) => move := Post;
      case Recovering(_) => move := PostError;
      case Counting => move := CountProcessed;
    }
    hide CallOk, CountersOk, FlagsOk, HistoryOk, Genuine, Pending;
  }

  predicate OnlyWork(steps: seq<Step>) {
    forall i :: 0 <= i < |steps| ==> steps[i].Work?
  }

  /** The workers cannot go on forever, and Stop waits for nothing else: after at most
      `Measure(s)` moves, in whatever order, either Stop can return or some worker
      can still move. */
  lemma {:induction false} StopTerminates(handler: Handler, s: State, steps: seq<Step>, t: State)
    requires Invariant(handler, s) && s.closed && !s.stopped
    requires OnlyWork(steps) && Execute(handler, s, steps) == Some(t)
    ensures Invariant(handler, t) && t.closed && !t.stopped
    ensures |steps| + Measure(t) <= Measure(s)
    ensures Enabled(t, StopReturns) || exists w: nat, move :: CanWork(t, w, move)
  {
    if steps != [] {
      var n := |steps| - 1;
      var u := Execute(handler, s, steps[..n]).value;
      StopTerminates(handler, s, steps[..n], u);
      hide Invariant, Measure, CanWork, AfterMove;
      var Work(w, move) := steps[n];
      MoveGetsCloser(handler, u, w, move);
      KeepMove(handler, u, w, move);
      MoveKeepsFlags(handler, u, w, move);
    }
    StopOrMove(handler, t);
  }

  lemma MoveKeepsFlags(handler: Handler, s: State, w: nat, move: Move)
    requires CanWork(s, w, move)
    ensures AfterMove(handler, s, w, move).closed == s.closed && AfterMove(handler, s, w, move).stopped == s.stopped
  {
  }

  lemma StopOrMove(handler: Handler, s: State)
    requires Invariant(handler, s) && s.closed && !s.stopped
    ensures Enabled(s, StopReturns) || exists w: nat, move :: CanWork(s, w, move)
  {
    assert s.cancelled;
    hide Invariant, CanWork, CanAct;
    if !AllExited(s) {
      var w: nat :| w < |s.workers| && !s.workers[w].Exited?;
      var move := SomeoneMoves(handler, s, w);
    }
  }

  // ----- counters -----

  /** When nobody is between a channel operation and its counter update, the counters
      are exact; in between they lag behind by exactly the updates that are due. */
  lemma CountersAreExact(handler: Handler, capacity: nat, workers: nat, s: State)
    requires Reachable(handler, capacity, workers, s)
    ensures s.queued + Uncounted(s.calls) == |s.calls| && s.dropped <= s.refused
    ensures s.processed + Busy(s.workers) + |s.buffer| == |s.calls|
    ensures (forall w :: 0 <= w < |s.workers| ==> s.workers[w].Idle? || s.workers[w].Exited?) ==>
              s.processed == |s.calls| - |s.buffer|
  {
    ReachableInvariant(handler, capacity, workers, s);
    Lengths(s);
    if forall w :: 0 <= w < |s.workers| ==> s.workers[w].Idle? || s.workers[w].Exited? {
      NobodyBusy(s.workers);
    }
    hide Reachable, Busy, Uncounted, CallOk, WorkerOk;
  }
}
