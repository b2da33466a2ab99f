/** What stopping the request queue means for those who call it: which requests are
    answered for certain, and when a call panics. */
module QueueStop {
  import opened Models
  import opened Cache
  import opened RequestQueue
  import opened QueueLaws

  // ----- runs after a state -----

  lemma {:induction false} ExecuteThen(handler: Handler, s: State, steps: seq<Step>, t: State, more: seq<Step>)
    requires Execute(handler, s, steps) == Some(t)
    ensures Execute(handler, s, steps + more) == Execute(handler, t, more)
  {
    hide Enabled, Next;
    if more == [] {
      assert steps + more == steps;
    } else {
      ExecuteThen(handler, s, steps, t, more[..|more| - 1]);
      assert (steps + more)[..|steps + more| - 1] == steps + more[..|more| - 1];
    }
  }

  lemma StillReachable(handler: Handler, capacity: nat, workers: nat, s: State, steps: seq<Step>, t: State)
    requires Reachable(handler, capacity, workers, s) && Execute(handler, s, steps) == Some(t)
    ensures Reachable(handler, capacity, workers, t)
  {
    var before :| Execute(handler, Init(capacity, workers), before) == Some(s);
    ExecuteThen(handler, Init(capacity, workers), before, s, steps);
  }

  lemma TakenStaysTaken(handler: Handler, s: State, step: Step)
    requires Enabled(s, step)
    ensures |s.owner| <= |Next(handler, s, step).owner| && |s.calls| <= |Next(handler, s, step).calls|
  {
    hide Apply, AllExited, CanWork, CanAct, AfterMove, AfterAct;
    match step
    case Work(w, move) => MoveTakes(handler, s, w, move);
    case Await(t, act) => ActTakes(s, t, act);
    case _ =>
  }

  lemma MoveTakes(handler: Handler, s: State, w: nat, move: Move)
    requires CanWork(s, w, move)
    ensures |s.owner| <= |AfterMove(handler, s, w, move).owner| && |AfterMove(handler, s, w, move).calls| == |s.calls|
  {
  }

  lemma ActTakes(s: State, t: nat, act: Act)
    requires CanAct(s, t, act)
    ensures AfterAct(s, t, act).owner == s.owner && |AfterAct(s, t, act).calls| == |s.calls|
  {
  }

  lemma {:induction false} TakenForGood(handler: Handler, s: State, steps: seq<Step>, t: State)
    requires Execute(handler, s, steps) == Some(t)
    ensures |s.owner| <= |t.owner| && |s.calls| <= |t.calls|
  {
    hide Enabled, Next, Execute;
    LastStep(handler, s, steps, t);
    if steps != [] {
      var n := |steps| - 1;
      var u := Execute(handler, s, steps[..n]).value;
      TakenForGood(handler, s, steps[..n], u);
      TakenStaysTaken(handler, u, steps[n]);
    }
  }

  // ----- a stop that takes nothing more -----

  /** Only this worker moved, and it took nothing. */
  predicate OnlyMoved(s: State, t: State, w: nat) {
    && |t.workers| == |s.workers| && (forall v :: 0 <= v < |s.workers| && v != w ==> t.workers[v] == s.workers[v])
    && t.buffer == s.buffer && t.cancelled == s.cancelled && t.closed == s.closed && t.stopped == s.stopped
  }

  lemma MoveOnly(handler: Handler, s: State, w: nat, move: Move)
    requires CanWork(s, w, move) && !move.Take?
    ensures OnlyMoved(s, AfterMove(handler, s, w, move), w)
    ensures Distance(AfterMove(handler, s, w, move).workers[w]) < Distance(s.workers[w])
  {
  }

  /** In a cancelled queue a worker can finish what it holds and leave. */
  lemma {:induction false} RetireWorker(handler: Handler, s: State, w: nat) returns (steps: seq<Step>, t: State)
    requires Invariant(handler, s) && s.cancelled && w < |s.workers|
    ensures Execute(handler, s, steps) == Some(t) && Invariant(handler, t)
    ensures OnlyMoved(s, t, w) && t.workers[w].Exited?
    decreases Distance(s.workers[w])
  {
    hide Execute, Invariant, CanWork, AfterMove, Enabled, Next;
    if s.workers[w].Exited? {
      ExecuteNothing(handler, s);
      return [], s;
    }
    var move := SomeoneMoves(handler, s, w);
    var u := AfterMove(handler, s, w, move);
    WorkStep(handler, s, w, move);
    MoveOnly(handler, s, w, move);
    KeepMove(handler, s, w, move);
    var more;
    more, t := RetireWorker(handler, u, w);
    ExecuteThen(handler, s, [Work(w, move)], u, more);
    steps := [Work(w, move)] + more;
  }

  lemma WorkStep(handler: Handler, s: State, w: nat, move: Move)
    requires CanWork(s, w, move)
    ensures Execute(handler, s, [Work(w, move)]) == Some(AfterMove(handler, s, w, move))
  {
    hide CanWork, AfterMove;
    assert [Work(w, move)][..0] == [];
  }

  lemma {:induction false} RetireWorkers(handler: Handler, s: State, n: nat) returns (steps: seq<Step>, t: State)
    requires Invariant(handler, s) && s.cancelled && n <= |s.workers|
    ensures Execute(handler, s, steps) == Some(t) && Invariant(handler, t)
    ensures |t.workers| == |s.workers| && forall w :: 0 <= w < n ==> t.workers[w].Exited?
    ensures t.buffer == s.buffer && t.cancelled && t.closed == s.closed && t.stopped == s.stopped
  {
    hide Execute, Invariant;
    if n == 0 {
      ExecuteNothing(handler, s);
      return [], s;
    }
    var early, u := RetireWorkers(handler, s, n - 1);
    var late;
    late, t := RetireWorker(handler, u, n - 1);
    ExecuteThen(handler, s, early, u, late);
    steps := early + late;
  }

  /** Stop can return without a worker taking one more request. */
  lemma StopTakingNothing(handler: Handler, s: State) returns (steps: seq<Step>, t: State)
    requires Invariant(handler, s) && !s.cancelled
    ensures Execute(handler, s, steps) == Some(t) && t.stopped && t.buffer == s.buffer
  {
    assert FlagsOk(s);
    var s1 := s.(cancelled := true);
    assert Enabled(s, Cancel) && Next(handler, s, Cancel) == s1;
    StepKeepsInvariant(handler, s, Cancel);
    var retire, u := RetireWorkers(handler, s1, |s.workers|);
    var u1 := u.(closed := true);
    assert Enabled(u, Close) && Next(handler, u, Close) == u1;
    assert Enabled(u1, StopReturns);
    t := Next(handler, u1, StopReturns);
    hide Execute, Invariant, Enabled, Next;
    ExecuteNothing(handler, s);
    OneStep(handler, s, [], s, Cancel);
    ExecuteThen(handler, s, [] + [Cancel], s1, retire);
    OneStep(handler, s, [] + [Cancel] + retire, u, Close);
    OneStep(handler, s, [] + [Cancel] + retire + [Close], u1, StopReturns);
    steps := [] + [Cancel] + retire + [Close] + [StopReturns];
  }

  // ----- which requests a stop answers -----

  /** A run from `s` in which Stop has returned. */
  predicate StoppedAfter(handler: Handler, s: State, steps: seq<Step>, t: State) {
    Execute(handler, s, steps) == Some(t) && t.stopped
  }

  /** When Stop is called, a request is certain to be answered before it returns exactly
      if a worker has taken it already. */
  lemma StopAnswersIffTaken(handler: Handler, capacity: nat, workers: nat, s: State, k: nat)
    requires Reachable(handler, capacity, workers, s) && !s.cancelled && k < |s.calls|
    ensures (forall steps, t | StoppedAfter(handler, s, steps, t) :: Answered(t, k)) <==> k !in s.buffer
  {
    ReachableInvariant(handler, capacity, workers, s);
    Lengths(s);
    EachRequestInOnePlace(handler, capacity, workers, s, k);
    hide Invariant, Execute, Reachable, Answered;
    if k in s.buffer {
      var steps, t := StopTakingNothing(handler, s);
      StillReachable(handler, capacity, workers, s, steps, t);
      TakenForGood(handler, s, steps, t);
      AfterStop(handler, capacity, workers, t, k);
      assert StoppedAfter(handler, s, steps, t) && !Answered(t, k);
    } else {
      forall steps, t | StoppedAfter(handler, s, steps, t)
        ensures Answered(t, k)
      {
        StillReachable(handler, capacity, workers, s, steps, t);
        TakenForGood(handler, s, steps, t);
        ReachableInvariant(handler, capacity, workers, t);
        Lengths(t);
        EachRequestInOnePlace(handler, capacity, workers, t, k);
        AfterStop(handler, capacity, workers, t, k);
      }
    }
  }

  predicate AnsweredUpTo(s: State, n: nat) {
    forall k: nat | k < n :: Answered(s, k)
  }

  /** So stopping answers everything accepted before, in every run, exactly if the
      buffer is empty when Stop is called. */
  lemma StopAnswersAllIff(handler: Handler, capacity: nat, workers: nat, s: State)
    requires Reachable(handler, capacity, workers, s) && !s.cancelled
    ensures (forall steps, t | StoppedAfter(handler, s, steps, t) :: AnsweredUpTo(t, |s.calls|)) <==> s.buffer == []
  {
    hide Execute, Reachable, Answered, StoppedAfter;
    if s.buffer == [] {
      forall steps, t | StoppedAfter(handler, s, steps, t)
        ensures AnsweredUpTo(t, |s.calls|)
      {
        forall k: nat | k < |s.calls|
          ensures Answered(t, k)
        {
          StopAnswersIffTaken(handler, capacity, workers, s, k);
        }
      }
    } else {
      ReachableInvariant(handler, capacity, workers, s);
      BufferHead(s);
      StopAnswersIffTaken(handler, capacity, workers, s, s.buffer[0]);
      var steps, t :| StoppedAfter(handler, s, steps, t) && !Answered(t, s.buffer[0]);
      assert !AnsweredUpTo(t, |s.calls|);
    }
  }

  lemma BufferHead(s: State)
    requires ChannelOk(s) && s.buffer != []
    ensures s.buffer[0] in s.buffer && s.buffer[0] < |s.calls|
  {
  }

  // ----- when a call panics -----

  lemma {:induction false} ClosedIffClose(handler: Handler, capacity: nat, workers: nat, steps: seq<Step>, t: State)
    requires Execute(handler, Init(capacity, workers), steps) == Some(t)
    ensures t.closed <==> Close in steps
  {
    hide Enabled, Next, Execute;
    LastStep(handler, Init(capacity, workers), steps, t);
    if steps != [] {
      var n := |steps| - 1;
      var u := Execute(handler, Init(capacity, workers), steps[..n]).value;
      ClosedIffClose(handler, capacity, workers, steps[..n], u);
      CloseStep(handler, u, steps[n]);
      assert steps == steps[..n] + [steps[n]];
    }
  }

  lemma CloseStep(handler: Handler, s: State, step: Step)
    requires Enabled(s, step)
    ensures Next(handler, s, step).closed <==> s.closed || step == Close
  {
    hide Apply, AllExited, CanWork, CanAct, AfterMove, AfterAct;
    match step
    case Work(w, move) => ClosedMove(handler, s, w, move);
    case Await(t, act) => ClosedAct(s, t, act);
    case _ =>
  }

  lemma {:induction false} StepOfRun(handler: Handler, s: State, steps: seq<Step>, i: nat)
    requires Execute(handler, s, steps).Some? && i < |steps|
    ensures Execute(handler, s, steps[..i]).Some? && Enabled(Execute(handler, s, steps[..i]).value, steps[i])
  {
    hide Enabled, Next;
    var n := |steps| - 1;
    if i < n {
      StepOfRun(handler, s, steps[..n], i);
      assert steps[..n][..i] == steps[..i];
    }
  }

  /** In every run a call panics exactly if Stop has closed the channel before it; all
      other calls are accepted or refused. */
  lemma PanicsIffClosedBefore(handler: Handler, capacity: nat, workers: nat, steps: seq<Step>, i: nat)
    requires Execute(handler, Init(capacity, workers), steps).Some? && i < |steps| && IsSubmission(steps[i])
    ensures steps[i].SubmitPanics? <==> Close in steps[..i]
  {
    StepOfRun(handler, Init(capacity, workers), steps, i);
    var u := Execute(handler, Init(capacity, workers), steps[..i]).value;
    ClosedIffClose(handler, capacity, workers, steps[..i], u);
    hide Execute, CanWork, CanAct, AllExited;
  }
}
