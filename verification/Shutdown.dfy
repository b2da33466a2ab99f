/** What a shutdown of the store can lose, and when it loses nothing. */
module Shutdown {
  import opened Models
  import opened Batches
  import opened WritePath
  import opened WriteLaws

  // ----- a writer at the head of its retry loop -----

  /** The writer has not committed and never will: its context has ended, or no
      attempt is allowed, and it is not inside a store call. */
  predicate Doomed(s: State, j: nat) {
    && j < |s.jobs|
    && (s.jobs[j].phase.Finished? || s.jobs[j].phase.Looping? || s.jobs[j].phase.Waiting?)
    && ChunkOf(s.jobs[j].phase).None?
    && (ContextEnded(s, s.jobs[j].ctx)
        || (s.jobs[j].phase.Looping? && s.jobs[j].phase.attempt > s.maxRetries)
        || s.jobs[j].phase.Finished?)
  }

  lemma StaysDoomed(s: State, step: Step, j: nat)
    requires Enabled(s, step) && Doomed(s, j)
    ensures Doomed(Next(s, step), j)
  {
    JobStep(s, step, j);
    hide Next, Concat;
  }

  lemma {:induction false} DoomedForever(s: State, steps: seq<Step>, j: nat)
    requires Doomed(s, j)
    ensures Execute(s, steps).Some? ==> Doomed(Execute(s, steps).value, j)
  {
    if steps != [] {
      DoomedForever(s, steps[..|steps| - 1], j);
      hide Doomed, Enabled, Next;
      var before := Execute(s, steps[..|steps| - 1]);
      if before.Some? && Enabled(before.value, steps[|steps| - 1]) {
        StaysDoomed(before.value, steps[|steps| - 1], j);
      }
    }
  }

  /** Some continuation commits the writer's payload. */
  ghost predicate CanCommit(s: State, j: nat) {
    exists steps :: CommitsAfter(s, steps, j)
  }

  predicate CommitsAfter(s: State, steps: seq<Step>, j: nat) {
    match Execute(s, steps)
    case None => false
    case Some(t) => j < |t.jobs| && ChunkOf(t.jobs[j].phase).Some?
  }

  /** At the head of its retry loop a writer can still commit exactly when an
      attempt is left and its context has not ended. */
  lemma CommitDecided(s: State, j: nat)
    requires j < |s.jobs| && s.jobs[j].phase.Looping?
    ensures CanCommit(s, j) <==> s.jobs[j].phase.attempt <= s.maxRetries && !ContextEnded(s, s.jobs[j].ctx)
  {
    if s.jobs[j].phase.attempt <= s.maxRetries && !ContextEnded(s, s.jobs[j].ctx) {
      hide Concat;
      var s1 := SetPhase(s, j, Storing(s.jobs[j].phase.attempt));
      assert Enabled(s, Check(j)) && Next(s, Check(j)) == s1 && Enabled(s1, StoreOk(j));
      var s2 := Next(s1, StoreOk(j));
      assert ChunkOf(s2.jobs[j].phase).Some?;
      hide Next, Enabled;
      ExecuteOneMore(s, [], s, Check(j));
      ExecuteOneMore(s, [] + [Check(j)], s1, StoreOk(j));
      assert CommitsAfter(s, [] + [Check(j)] + [StoreOk(j)], j);
    } else {
      assert Doomed(s, j);
      forall steps
        ensures !CommitsAfter(s, steps, j)
      {
        DoomedForever(s, steps, j);
      }
    }
  }

  /** The batch accepted as number `t` is written in some continuation. */
  ghost predicate CanBeWritten(s: State, t: nat) {
    exists steps :: WrittenAfter(s, steps, t)
  }

  ghost predicate WrittenAfter(s: State, steps: seq<Step>, t: nat) {
    match Execute(s, steps)
    case None => false
    case Some(s') => Written(s', t)
  }

  lemma {:induction false} WorkerJobKept(s: State, steps: seq<Step>, j: nat)
    requires FromWorkerAt(s, j) && Invariant(s)
    ensures
      match Execute(s, steps)
      case None => true
      case Some(t) => FromWorkerAt(t, j) && t.jobs[j].tickets == s.jobs[j].tickets
  {
    if steps != [] {
      WorkerJobKept(s, steps[..|steps| - 1], j);
      InvariantThrough(s, steps[..|steps| - 1]);
      hide Invariant, Enabled, Next;
      var before := Execute(s, steps[..|steps| - 1]);
      if before.Some? && Enabled(before.value, steps[|steps| - 1]) {
        WorkerJobStep(before.value, steps[|steps| - 1], j);
      }
    }
  }

  lemma WorkerJobStep(s: State, step: Step, j: nat)
    requires Enabled(s, step) && Invariant(s) && FromWorkerAt(s, j)
    ensures FromWorkerAt(Next(s, step), j) && Next(s, step).jobs[j].tickets == s.jobs[j].tickets
  {
    if step.Collect? {
      CollectIsFlush(s, step.job);
    }
    JobStep(s, step, j);
    hide Next, Concat, Invariant;
  }

  /** The batch of a worker job can be written exactly when the job can commit. */
  lemma WrittenByItsJob(s: State, j: nat, t: nat)
    requires Invariant(s) && FromWorkerAt(s, j) && Holds(s, j, t)
    ensures CanBeWritten(s, t) <==> CanCommit(s, j)
  {
    forall steps
      ensures WrittenAfter(s, steps, t) <==> CommitsAfter(s, steps, j)
    {
      WorkerJobKept(s, steps, j);
      InvariantThrough(s, steps);
      hide Invariant;
      if Execute(s, steps).Some? {
        FateOfHolder(Execute(s, steps).value, t, j);
      }
    }
    assert forall steps :: WrittenAfter(s, steps, t) <==> CommitsAfter(s, steps, j);
  }

  lemma TakenBatch(s: State, step: Step)
    requires Invariant(s) && Enabled(s, step) && (step.WorkerTake? || step.DrainTake?)
    ensures |s.owner| < |s.accepted| && s.accepted[|s.owner|] == s.queue[0]
    ensures FromWorkerAt(Next(s, step), |s.jobs|) && Holds(Next(s, step), |s.jobs|, |s.owner|)
  {
  }

  /** A batch the flush worker receives in its main select can still be written
      exactly when the store has not been stopped; received after the stop it is
      lost for good, although it had been accepted. */
  lemma TakenAfterStopIsLost(maxRetries: int, s: State)
    requires Reachable(maxRetries, s) && Enabled(s, WorkerTake)
    ensures CanBeWritten(Next(s, WorkerTake), |s.owner|) <==> maxRetries >= 1 && !s.cancelled
    ensures |s.owner| < |s.accepted| && s.accepted[|s.owner|] == s.queue[0]
  {
    SameLimit(maxRetries, s);
    ReachableInvariant(maxRetries, s);
    TakenBatch(s, WorkerTake);
    CommitDecided(Next(s, WorkerTake), |s.jobs|);
    StepKeepsInvariant(s, WorkerTake);
    WrittenByItsJob(Next(s, WorkerTake), |s.jobs|, |s.owner|);
  }

  /** A batch received by the shutdown drain can still be written exactly when the
      drain's own timeout has not fired. */
  lemma DrainedInTime(maxRetries: int, s: State)
    requires Reachable(maxRetries, s) && Enabled(s, DrainTake)
    ensures CanBeWritten(Next(s, DrainTake), |s.owner|) <==> maxRetries >= 1 && !s.drainExpired
    ensures |s.owner| < |s.accepted| && s.accepted[|s.owner|] == s.queue[0]
  {
    SameLimit(maxRetries, s);
    ReachableInvariant(maxRetries, s);
    TakenBatch(s, DrainTake);
    CommitDecided(Next(s, DrainTake), |s.jobs|);
    StepKeepsInvariant(s, DrainTake);
    WrittenByItsJob(Next(s, DrainTake), |s.jobs|, |s.owner|);
  }

  lemma {:induction false} SameLimitRun(s: State, steps: seq<Step>)
    ensures Execute(s, steps).Some? ==> Execute(s, steps).value.maxRetries == s.maxRetries
  {
    if steps != [] {
      SameLimitRun(s, steps[..|steps| - 1]);
      hide Enabled, Next;
      var before := Execute(s, steps[..|steps| - 1]);
      if before.Some? && Enabled(before.value, steps[|steps| - 1]) {
        SameLimitStep(before.value, steps[|steps| - 1]);
      }
    }
  }

  lemma SameLimitStep(s: State, step: Step)
    requires Enabled(s, step)
    ensures Next(s, step).maxRetries == s.maxRetries
  {
    hide Concat, Enabled;
  }

  lemma SameLimit(maxRetries: int, s: State)
    requires Reachable(maxRetries, s)
    ensures s.maxRetries == maxRetries
  {
    var steps :| Execute(Init(maxRetries), steps) == Some(s);
    SameLimitRun(Init(maxRetries), steps);
  }

  /** So a graceful stop need not persist every accepted batch: this one is accepted
      before the stop and could be written, but not if the stop comes before the worker
      takes it. */
  lemma StopMayLoseABatch(maxRetries: int, batch: Batch)
    requires batch != []
    ensures exists s ::
              && Reachable(maxRetries, s) && s.accepted == [batch] && s.queue == [batch] && !s.cancelled
              && Enabled(s, WorkerTake) && (maxRetries >= 1 ==> CanBeWritten(Next(s, WorkerTake), 0))
              && Enabled(s, Cancel) && Enabled(Next(s, Cancel), WorkerTake)
              && !CanBeWritten(Next(Next(s, Cancel), WorkerTake), 0)
  {
    var s0 := Init(maxRetries);
    var s1 := s0.(accepted := [batch], counted := [false], queue := [batch]);
    var s2 := s1.(cancelled := true);
    assert Enabled(s0, Offer(batch)) && Next(s0, Offer(batch)) == s1;
    assert Enabled(s1, Cancel) && Next(s1, Cancel) == s2;
    assert Enabled(s1, WorkerTake) && Enabled(s2, WorkerTake);
    hide Next, Enabled, CanBeWritten;
    ExecuteOneMore(s0, [], s0, Offer(batch));
    ExecuteOneMore(s0, [] + [Offer(batch)], s1, Cancel);
    assert Reachable(maxRetries, s1) && Reachable(maxRetries, s2);
    TakenAfterStopIsLost(maxRetries, s1);
    TakenAfterStopIsLost(maxRetries, s2);
  }

  /** A store that holds one batch and whose drain has just timed out. */
  function TimedOut(maxRetries: int, batch: Batch): State {
    Init(maxRetries).(accepted := [batch], counted := [false], queue := [batch],
                      cancelled := true, worker := Draining, drainExpired := true)
  }

  lemma DrainTimesOut(maxRetries: int, batch: Batch) returns (steps: seq<Step>)
    requires batch != []
    ensures Execute(Init(maxRetries), steps) == Some(TimedOut(maxRetries, batch))
  {
    var s0 := Init(maxRetries);
    var s1 := s0.(accepted := [batch], counted := [false], queue := [batch]);
    var s2 := s1.(cancelled := true);
    var s3 := s2.(worker := Draining);
    assert Enabled(s0, Offer(batch)) && Next(s0, Offer(batch)) == s1;
    assert Enabled(s1, Cancel) && Next(s1, Cancel) == s2;
    assert Enabled(s2, BeginDrain) && Next(s2, BeginDrain) == s3;
    assert Enabled(s3, DrainExpire) && Next(s3, DrainExpire) == TimedOut(maxRetries, batch);
    hide Next, Enabled;
    ExecuteOneMore(s0, [], s0, Offer(batch));
    ExecuteOneMore(s0, [] + [Offer(batch)], s1, Cancel);
    ExecuteOneMore(s0, [] + [Offer(batch)] + [Cancel], s2, BeginDrain);
    steps := [] + [Offer(batch)] + [Cancel] + [BeginDrain];
    ExecuteOneMore(s0, steps, s3, DrainExpire);
    steps := steps + [DrainExpire];
  }

  lemma DrainMayLeaveABatch(maxRetries: int, batch: Batch)
    requires batch != []
    ensures exists s :: Reachable(maxRetries, s) && s.worker.Exited? && s.accepted == [batch] && s.queue == [batch]
  {
    var steps := DrainTimesOut(maxRetries, batch);
    var s := TimedOut(maxRetries, batch);
    assert Enabled(s, WorkerExit) && Next(s, WorkerExit) == s.(worker := Exited);
    hide Next, Enabled, Execute;
    ExecuteOneMore(Init(maxRetries), steps, s, WorkerExit);
    assert Reachable(maxRetries, s.(worker := Exited));
  }

  /** The batch once the drain has taken it too late. */
  function TakenTooLate(maxRetries: int, batch: Batch, phase: Phase, worker: Worker): State {
    TimedOut(maxRetries, batch).(
      queue := [], owner := [0], jobs := [Job(FromWorker, [0], [batch], Drain, phase)], worker := worker)
  }

  lemma TooLateSteps(maxRetries: int, batch: Batch)
    requires batch != [] && maxRetries >= 1
    ensures
      var s := TimedOut(maxRetries, batch);
      Enabled(s, DrainTake) && Next(s, DrainTake) == TakenTooLate(maxRetries, batch, Looping(1), DrainBusy(0))
    ensures
      var s := TakenTooLate(maxRetries, batch, Looping(1), DrainBusy(0));
      && Enabled(s, Check(0))
      && Next(s, Check(0)) == TakenTooLate(maxRetries, batch, Finished(ContextError), Draining)
  {
    hide Concat;
  }

  /** When the drain's timeout fires, the worker may return with batches left in the
      channel, or take one more, which is lost. */
  lemma DrainMayTakeTooLate(maxRetries: int, batch: Batch)
    requires batch != [] && maxRetries >= 1
    ensures exists s :: Reachable(maxRetries, s) && s.drainExpired && s.accepted == [batch] && Lost(s, 0)
  {
    var steps := DrainTimesOut(maxRetries, batch);
    var s := TakenTooLate(maxRetries, batch, Finished(ContextError), Draining);
    assert Holds(s, 0, 0) && Lost(s, 0) && s.accepted == [batch] && s.drainExpired;
    TooLateSteps(maxRetries, batch);
    hide Next, Enabled, Execute, Lost, Init, TakenTooLate, TimedOut;
    ExecuteOneMore(Init(maxRetries), steps, TimedOut(maxRetries, batch), DrainTake);
    ExecuteOneMore(Init(maxRetries), steps + [DrainTake],
                   TakenTooLate(maxRetries, batch, Looping(1), DrainBusy(0)), Check(0));
    assert Reachable(maxRetries, s);
  }
}
