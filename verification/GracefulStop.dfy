/** When a graceful stop of the store persists what was accepted: exactly, for every
    run after the stop, and exactly, for the state in which Stop is called. */
module GracefulStop {
  import opened Models
  import opened Batches
  import opened WritePath
  import opened WriteLaws
  import opened Shutdown

  // ----- runs in which nothing else goes wrong -----

  /** No store call of the flush worker fails while its context lives, its drain does not
      time out, and no manual flush takes a batch away. A store call whose context has
      ended may fail: Stop itself cancels the call that is under way. */
  predicate Quiet(s: State, step: Step) {
    && !step.Collect? && !step.DrainExpire?
    && (step.StoreFail? && step.job < |s.jobs| && s.jobs[step.job].kind.FromWorker? ==>
          ContextEnded(s, s.jobs[step.job].ctx))
  }

  /** The state after the steps, if each was possible and quiet. */
  function Quietly(s: State, steps: seq<Step>): Option<State> {
    if steps == [] then Some(s)
    else
      match Quietly(s, steps[..|steps| - 1])
      case None => None
      case Some(t) =>
        var step := steps[|steps| - 1];
        if Enabled(t, step) && Quiet(t, step) then Some(Next(t, step)) else None
  }

  lemma LastQuietStep(s: State, steps: seq<Step>, t: State)
    requires Quietly(s, steps) == Some(t)
    ensures steps == [] ==> t == s
    ensures
      steps != [] ==>
        var n := |steps| - 1;
        && Quietly(s, steps[..n]).Some?
        && var u := Quietly(s, steps[..n]).value;
          Enabled(u, steps[n]) && Quiet(u, steps[n]) && t == Next(u, steps[n])
  {
    hide Enabled, Next, Quiet;
  }

  lemma QuietNothing(s: State)
    ensures Quietly(s, []) == Some(s)
  {
  }

  lemma QuietOneMore(s: State, steps: seq<Step>, t: State, step: Step)
    requires Quietly(s, steps) == Some(t) && Enabled(t, step) && Quiet(t, step)
    ensures Quietly(s, steps + [step]) == Some(Next(t, step))
  {
    assert (steps + [step])[..|steps|] == steps;
  }

  lemma {:induction false} QuietThen(s: State, steps: seq<Step>, t: State, more: seq<Step>)
    requires Quietly(s, steps) == Some(t)
    ensures Quietly(s, steps + more) == Quietly(t, more)
  {
    hide Enabled, Next, Quiet;
    if more == [] {
      assert steps + more == steps;
    } else {
      QuietThen(s, steps, t, more[..|more| - 1]);
      assert (steps + more)[..|steps + more| - 1] == steps + more[..|more| - 1];
    }
  }

  lemma {:induction false} QuietRunIsRun(s: State, steps: seq<Step>, t: State)
    requires Quietly(s, steps) == Some(t)
    ensures Execute(s, steps) == Some(t)
    ensures Invariant(s) ==> Invariant(t)
  {
    hide Enabled, Next, Quiet, Invariant;
    LastQuietStep(s, steps, t);
    if steps != [] {
      var u := Quietly(s, steps[..|steps| - 1]).value;
      QuietRunIsRun(s, steps[..|steps| - 1], u);
      if Invariant(s) {
        StepKeepsInvariant(u, steps[|steps| - 1]);
      }
    }
  }

  // ----- jobs on their way to a commit -----

  /** The job has committed, or is the drain's and will. */
  predicate OnTrack(maxRetries: int, job: Job) {
    || job.phase.Crediting?
    || (job.phase.Finished? && job.phase.outcome.Committed?)
    || (job.kind.FromWorker? && job.ctx == Drain
        && (job.phase.Storing? || (maxRetries >= 1 && job.phase == Looping(1))))
  }

  lemma OnTrackStep(s: State, step: Step, j: nat)
    requires Enabled(s, step) && Quiet(s, step) && !s.drainExpired && j < |s.jobs|
    ensures j < |Next(s, step).jobs| && Next(s, step).jobs[j].tickets == s.jobs[j].tickets
    ensures Next(s, step).maxRetries == s.maxRetries
    ensures OnTrack(s.maxRetries, s.jobs[j]) ==> OnTrack(s.maxRetries, Next(s, step).jobs[j])
    ensures s.jobs[j].phase.Finished? ==> Next(s, step).jobs[j].phase == s.jobs[j].phase
  {
    JobStep(s, step, j);
    JobStepFrame(s, step, j);
    hide Next, Concat;
  }

  lemma QuietFlags(s: State, step: Step)
    requires Enabled(s, step) && Quiet(s, step)
    ensures Next(s, step).drainExpired == s.drainExpired && (s.cancelled ==> Next(s, step).cancelled)
  {
    hide Concat, ContextEnded;
  }

  lemma {:induction false} OnTrackRun(s: State, steps: seq<Step>, t: State, j: nat)
    requires Quietly(s, steps) == Some(t) && !s.drainExpired && j < |s.jobs|
    ensures !t.drainExpired && t.maxRetries == s.maxRetries
    ensures j < |t.jobs| && t.jobs[j].tickets == s.jobs[j].tickets
    ensures OnTrack(s.maxRetries, s.jobs[j]) ==> OnTrack(s.maxRetries, t.jobs[j])
    ensures s.jobs[j].phase.Finished? ==> t.jobs[j].phase == s.jobs[j].phase
  {
    hide Enabled, Next, Quiet, OnTrack;
    LastQuietStep(s, steps, t);
    if steps != [] {
      var u := Quietly(s, steps[..|steps| - 1]).value;
      OnTrackRun(s, steps[..|steps| - 1], u, j);
      OnTrackStep(u, steps[|steps| - 1], j);
      QuietFlags(u, steps[|steps| - 1]);
    }
  }

  /** The job holds batches and has neither ended nor committed. */
  predicate UnderWay(job: Job) {
    job.tickets != [] && !job.phase.Finished? && !job.phase.Crediting?
  }

  /** Every job that holds batches has ended or has committed. */
  predicate Settled(s: State) {
    forall j :: 0 <= j < |s.jobs| ==> !UnderWay(s.jobs[j])
  }

  /** When the worker can return, a batch whose job is on track has been written. */
  lemma OnTrackIsWritten(s: State, j: nat, k: nat)
    requires Invariant(s) && Holds(s, j, k) && OnTrack(s.maxRetries, s.jobs[j]) && s.worker.Draining?
    ensures Written(s, k)
  {
    assert WorkerOk(s, j);
    FateOfHolder(s, k, j);
    hide JobOk, ChunkOk, CountersOk, ChannelOk, OwnerOk;
  }

  /** A batch whose job had ended when Stop was called keeps its fate. */
  lemma EndedKeepsFate(s: State, t: State, j: nat, k: nat)
    requires Invariant(s) && Invariant(t) && Holds(s, j, k) && s.jobs[j].phase.Finished?
    requires j < |t.jobs| && t.jobs[j].tickets == s.jobs[j].tickets && t.jobs[j].phase == s.jobs[j].phase
    ensures Lost(s, k) || Written(t, k)
  {
    FateOfHolder(s, k, j);
    FateOfHolder(t, k, j);
    hide Invariant;
  }

  // ----- after the stop: exactly the runs that lose nothing -----

  /** Jobs holding batches are on track, or had ended in `s`, or were under way in it. */
  predicate Tracked(s: State, u: State) {
    forall j :: 0 <= j < |u.jobs| && u.jobs[j].tickets != [] ==>
      || OnTrack(u.maxRetries, u.jobs[j])
      || (j < |s.jobs| && s.jobs[j].phase.Finished? && u.jobs[j].phase == s.jobs[j].phase
          && u.jobs[j].tickets == s.jobs[j].tickets)
      || (j < |s.jobs| && UnderWay(s.jobs[j]))
  }

  lemma TrackedStep(s: State, u: State, step: Step)
    requires Tracked(s, u) && !u.drainExpired && u.maxRetries >= 1
    requires Enabled(u, step) && Quiet(u, step) && !step.WorkerTake?
    ensures Tracked(s, Next(u, step))
  {
    var u' := Next(u, step);
    NewTracked(u, step);
    assert u'.maxRetries == u.maxRetries by { NextJobs(u, step); }
    hide Next, Enabled, Quiet, OnTrack;
    forall j | 0 <= j < |u'.jobs| && u'.jobs[j].tickets != []
      ensures || OnTrack(u.maxRetries, u'.jobs[j])
              || (j < |s.jobs| && s.jobs[j].phase.Finished? && u'.jobs[j].phase == s.jobs[j].phase
                  && u'.jobs[j].tickets == s.jobs[j].tickets)
              || (j < |s.jobs| && UnderWay(s.jobs[j]))
    {
      if j < |u.jobs| {
        OnTrackStep(u, step, j);
      }
    }
  }

  /** A new job holds nothing, or was started by the drain. */
  lemma NewTracked(s: State, step: Step)
    requires Enabled(s, step) && s.maxRetries >= 1 && !step.WorkerTake?
    ensures
      forall j | |s.jobs| <= j < |Next(s, step).jobs| ::
        Next(s, step).jobs[j].tickets == [] || OnTrack(s.maxRetries, Next(s, step).jobs[j])
  {
    NextJobs(s, step);
    hide Next, PhaseAfter, Concat;
  }

  lemma {:induction false} TrackedRun(s: State, u: State, steps: seq<Step>, t: State)
    requires Tracked(s, u) && !u.drainExpired && u.maxRetries >= 1 && Quietly(u, steps) == Some(t)
    requires forall i :: 0 <= i < |steps| ==> !steps[i].WorkerTake?
    ensures Tracked(s, t) && !t.drainExpired && t.maxRetries == u.maxRetries
  {
    hide Enabled, Next, Quiet, Tracked;
    LastQuietStep(u, steps, t);
    if steps != [] {
      var n := |steps| - 1;
      var v := Quietly(u, steps[..n]).value;
      TrackedRun(s, u, steps[..n], v);
      TrackedStep(s, v, steps[n]);
      QuietFlags(v, steps[n]);
      SameLimitStep(v, steps[n]);
    }
  }

  lemma ChannelGrows(s: State, step: Step)
    requires Enabled(s, step)
    ensures |s.owner| <= |Next(s, step).owner| && |s.accepted| <= |Next(s, step).accepted|
  {
    hide Concat, ContextEnded;
  }

  lemma UnwritableStays(s: State, step: Step, k: nat)
    requires Enabled(s, step) && !CanBeWritten(s, k)
    ensures !CanBeWritten(Next(s, step), k)
  {
    hide Enabled, Next, Written;
    assert Execute(s, [step]) == Some(Next(s, step)) by { assert [step][..0] == []; }
    forall steps
      ensures !WrittenAfter(Next(s, step), steps, k)
    {
      ExecuteThen(s, [step], Next(s, step), steps);
      assert !WrittenAfter(s, [step] + steps, k);
    }
  }

  /** A batch taken in the main select after the stop is never written. */
  lemma {:induction false} TakeLoses(maxRetries: int, s: State, steps: seq<Step>, t: State) returns (k: nat)
    requires Reachable(maxRetries, s) && s.cancelled && Quietly(s, steps) == Some(t)
    requires exists i :: 0 <= i < |steps| && steps[i].WorkerTake?
    ensures |s.owner| <= k < |t.accepted| && !CanBeWritten(t, k)
  {
    hide Enabled, Next, Quiet, CanBeWritten, Reachable;
    LastQuietStep(s, steps, t);
    var n := |steps| - 1;
    var u := Quietly(s, steps[..n]).value;
    ChannelGrows(u, steps[n]);
    if exists i :: 0 <= i < n && steps[i].WorkerTake? {
      var i :| 0 <= i < n && steps[i].WorkerTake?;
      assert steps[..n][i].WorkerTake?;
      k := TakeLoses(maxRetries, s, steps[..n], u);
      UnwritableStays(u, steps[n], k);
    } else {
      assert steps[n] == WorkerTake;
      CancelledRun(maxRetries, s, steps[..n], u);
      TakenAfterStopIsLost(maxRetries, u);
      k := |u.owner|;
    }
  }

  lemma {:induction false} CancelledRun(maxRetries: int, s: State, steps: seq<Step>, t: State)
    requires Reachable(maxRetries, s) && s.cancelled && Quietly(s, steps) == Some(t)
    ensures Reachable(maxRetries, t) && t.cancelled && |s.owner| <= |t.owner|
  {
    hide Enabled, Next, Quiet, Reachable;
    LastQuietStep(s, steps, t);
    if steps != [] {
      var n := |steps| - 1;
      var u := Quietly(s, steps[..n]).value;
      CancelledRun(maxRetries, s, steps[..n], u);
      ChannelGrows(u, steps[n]);
      QuietFlags(u, steps[n]);
      OneStepFurther(maxRetries, u, steps[n]);
    }
  }

  lemma OneStepFurther(maxRetries: int, s: State, step: Step)
    requires Reachable(maxRetries, s) && Enabled(s, step)
    ensures Reachable(maxRetries, Next(s, step))
  {
    hide Enabled, Next;
    var steps :| Execute(Init(maxRetries), steps) == Some(s);
    ExecuteOneMore(Init(maxRetries), steps, s, step);
  }

  lemma UnwritableIsUnwritten(s: State, k: nat)
    requires !CanBeWritten(s, k)
    ensures !Written(s, k)
  {
    hide Written;
    assert Execute(s, []) == Some(s);
    assert !WrittenAfter(s, [], k);
  }

  /** A run from Stop to the moment the flush worker returns, in which nothing else goes
      wrong. */
  predicate StopsQuietly(s: State, steps: seq<Step>, t: State) {
    Quietly(s.(cancelled := true), steps) == Some(t) && Enabled(t, WorkerExit)
  }

  /** All of the first `n` batches have been written, but for those lost before `s`. */
  ghost predicate PersistedUpTo(s: State, t: State, n: nat) {
    forall k: nat | k < n :: Lost(s, k) || Written(t, k)
  }

  lemma StopStep(maxRetries: int, s: State)
    requires Reachable(maxRetries, s) && !s.cancelled
    ensures Invariant(s) && !s.drainExpired && s.maxRetries == maxRetries
    ensures Reachable(maxRetries, s.(cancelled := true)) && Invariant(s.(cancelled := true))
    ensures s.worker.Selecting? || s.worker.Busy?
  {
    ReachableInvariant(maxRetries, s);
    SameLimit(maxRetries, s);
    assert WorkerKnown(s);
    OneStepFurther(maxRetries, s, Cancel);
    StepKeepsInvariant(s, Cancel);
    hide Invariant, Reachable;
  }

  lemma TakenWhenDrained(s: State, k: nat) returns (j: nat)
    requires Invariant(s) && s.queue == [] && k < |s.accepted|
    ensures Holds(s, j, k) && j < |s.jobs| && s.jobs[j].tickets != []
  {
    HeldByOwner(s, k);
    j := s.owner[k];
  }

  /** What was under way when Stop was called has committed in `t`. */
  predicate UnderWayCommitted(s: State, t: State) {
    forall j :: 0 <= j < |s.jobs| && UnderWay(s.jobs[j]) ==> j < |t.jobs| && ChunkOf(t.jobs[j].phase).Some?
  }

  /** Without a take in the main select, everything is written. */
  lemma NoTakePersists(maxRetries: int, s: State, steps: seq<Step>, t: State, k: nat)
    requires Reachable(maxRetries, s) && !s.cancelled && maxRetries >= 1 && StopsQuietly(s, steps, t)
    requires UnderWayCommitted(s, t)
    requires k < |t.accepted| && forall i :: 0 <= i < |steps| ==> !steps[i].WorkerTake?
    ensures Lost(s, k) || Written(t, k)
  {
    var s1 := s.(cancelled := true);
    StopStep(maxRetries, s);
    assert Tracked(s, s1);
    TrackedRun(s, s1, steps, t);
    QuietRunIsRun(s1, steps, t);
    assert t.worker.Draining? && t.queue == [];
    hide Quietly, Reachable, Invariant, OnTrack, Execute, Enabled;
    var j := TakenWhenDrained(t, k);
    if OnTrack(t.maxRetries, t.jobs[j]) {
      OnTrackIsWritten(t, j, k);
    } else if j < |s.jobs| && UnderWay(s.jobs[j]) {
      FateOfHolder(t, k, j);
    } else {
      EndedKeepsFate(s, t, j, k);
    }
  }

  /** A batch of a job that was under way is written exactly if the job committed. */
  lemma UnderWayDecides(maxRetries: int, s: State, steps: seq<Step>, t: State, j: nat) returns (k: nat)
    requires Reachable(maxRetries, s) && !s.cancelled && StopsQuietly(s, steps, t)
    requires j < |s.jobs| && UnderWay(s.jobs[j])
    ensures k < |s.accepted| && !Lost(s, k) && j < |t.jobs|
    ensures Written(t, k) <==> ChunkOf(t.jobs[j].phase).Some?
  {
    var s1 := s.(cancelled := true);
    StopStep(maxRetries, s);
    QuietRunIsRun(s1, steps, t);
    OnTrackRun(s1, steps, t, j);
    k := s.jobs[j].tickets[0];
    assert JobOk(s, j) && Holds(s, j, k) && Holds(t, j, k);
    hide Quietly, Reachable, Execute, ChunkOk, CountersOk, OwnerOk, WorkerOk, Enabled;
    FateOfHolder(s, k, j);
    FateOfHolder(t, k, j);
  }

  lemma {:induction false} AcceptedGrows(s: State, steps: seq<Step>, t: State)
    requires Quietly(s, steps) == Some(t)
    ensures |s.accepted| <= |t.accepted|
  {
    hide Enabled, Next, Quiet;
    LastQuietStep(s, steps, t);
    if steps != [] {
      var n := |steps| - 1;
      var u := Quietly(s, steps[..n]).value;
      AcceptedGrows(s, steps[..n], u);
      ChannelGrows(u, steps[n]);
    }
  }

  /** After the stop everything accepted until the worker returns is written, apart from
      what was lost before, exactly if every writer under way at the stop commits and the
      worker takes no batch in its main select any more. */
  lemma StopWritesAllIff(maxRetries: int, s: State, steps: seq<Step>, t: State)
    requires Reachable(maxRetries, s) && !s.cancelled && maxRetries >= 1 && StopsQuietly(s, steps, t)
    ensures PersistedUpTo(s, t, |t.accepted|) <==>
              UnderWayCommitted(s, t) && forall i :: 0 <= i < |steps| ==> !steps[i].WorkerTake?
  {
    if !UnderWayCommitted(s, t) {
      hide Enabled, Reachable, Written, Lost;
      AcceptedGrows(s.(cancelled := true), steps, t);
      var j: nat :| j < |s.jobs| && UnderWay(s.jobs[j]) && !(j < |t.jobs| && ChunkOf(t.jobs[j].phase).Some?);
      var k := UnderWayDecides(maxRetries, s, steps, t, j);
    } else if forall i :: 0 <= i < |steps| ==> !steps[i].WorkerTake? {
      forall k: nat | k < |t.accepted|
        ensures Lost(s, k) || Written(t, k)
      {
        NoTakePersists(maxRetries, s, steps, t, k);
      }
    } else {
      StopStep(maxRetries, s);
      hide Enabled, Reachable, CanBeWritten, Written, Invariant;
      var k := TakeLoses(maxRetries, s.(cancelled := true), steps, t);
      UnwritableIsUnwritten(t, k);
      NotYetLost(s, k);
    }
  }

  lemma NotYetLost(s: State, k: nat)
    requires Invariant(s) && |s.owner| <= k
    ensures !Lost(s, k)
  {
    forall j: nat
      ensures !Holds(s, j, k)
    {
      if Holds(s, j, k) {
        OneHolder(s, j, j, k);
      }
    }
  }

  // ----- at the call: exactly the states from which every run loses nothing -----

  /** If the worker takes nothing more, what it or another job was at is decided by how
      that job stood when Stop was called. */
  lemma SettledPersists(maxRetries: int, s: State, steps: seq<Step>, t: State, k: nat)
    requires Reachable(maxRetries, s) && !s.cancelled && s.queue == [] && Settled(s) && StopsQuietly(s, steps, t)
    requires k < |s.accepted|
    ensures Lost(s, k) || Written(t, k)
  {
    var s1 := s.(cancelled := true);
    StopStep(maxRetries, s);
    QuietRunIsRun(s1, steps, t);
    var j := TakenWhenDrained(s, k);
    assert s.jobs[j].phase.Finished? || OnTrack(s.maxRetries, s.jobs[j]);
    assert t.worker.Draining?;
    OnTrackRun(s1, steps, t, j);
    hide Quietly, Reachable, Invariant, OnTrack, Execute, Enabled, Settled;
    if s.jobs[j].phase.Finished? {
      EndedKeepsFate(s, t, j, k);
    } else {
      OnTrackIsWritten(t, j, k);
    }
  }

  /** The worker's current job is over, the other jobs are as they were. */
  predicate WorkerFreed(s: State, t: State) {
    && t.worker.Selecting? && t.cancelled && t.queue == s.queue && t.owner == s.owner && t.accepted == s.accepted
    && t.maxRetries == s.maxRetries && |t.jobs| == |s.jobs|
    && (forall j :: 0 <= j < |s.jobs| && s.worker != Busy(j) ==> t.jobs[j] == s.jobs[j])
    && (forall j :: 0 <= j < |s.jobs| && s.worker == Busy(j) ==>
          t.jobs[j].tickets == s.jobs[j].tickets
          && (!s.jobs[j].phase.Crediting? ==> ChunkOf(t.jobs[j].phase).None?))
  }

  lemma FreeLooping(s: State, j: nat) returns (steps: seq<Step>, t: State)
    requires j < |s.jobs| && s.worker == Busy(j) && s.cancelled && s.jobs[j].ctx == Root && s.jobs[j].phase.Looping?
    ensures Quietly(s, steps) == Some(t) && WorkerFreed(s, t)
  {
    hide Concat;
    t := Next(s, Check(j));
    assert WorkerFreed(s, t) && Enabled(s, Check(j)) && Quiet(s, Check(j));
    hide Enabled, Next, Quiet, WorkerFreed;
    QuietNothing(s);
    QuietOneMore(s, [], s, Check(j));
    steps := [] + [Check(j)];
  }

  lemma FreeWaiting(s: State, j: nat) returns (steps: seq<Step>, t: State)
    requires j < |s.jobs| && s.worker == Busy(j) && s.cancelled && s.jobs[j].ctx == Root && s.jobs[j].phase.Waiting?
    ensures Quietly(s, steps) == Some(t) && WorkerFreed(s, t)
  {
    hide Concat;
    t := Next(s, GiveUp(j));
    assert WorkerFreed(s, t) && Enabled(s, GiveUp(j)) && Quiet(s, GiveUp(j));
    hide Enabled, Next, Quiet, WorkerFreed;
    QuietNothing(s);
    QuietOneMore(s, [], s, GiveUp(j));
    steps := [] + [GiveUp(j)];
  }

  lemma FreeCrediting(s: State, j: nat) returns (steps: seq<Step>, t: State)
    requires j < |s.jobs| && s.worker == Busy(j) && s.cancelled && s.jobs[j].phase.Crediting?
    ensures Quietly(s, steps) == Some(t) && WorkerFreed(s, t)
  {
    hide Concat;
    t := Next(s, Credit(j));
    assert WorkerFreed(s, t) && Enabled(s, Credit(j)) && Quiet(s, Credit(j));
    hide Enabled, Next, Quiet, WorkerFreed;
    QuietNothing(s);
    QuietOneMore(s, [], s, Credit(j));
    steps := [] + [Credit(j)];
  }

  /** The stop cancels the store call, which then fails. */
  lemma StopFailsCall(s: State, j: nat) returns (u: State)
    requires j < |s.jobs| && s.worker == Busy(j) && s.cancelled && s.jobs[j].ctx == Root && s.jobs[j].phase.Storing?
    ensures Enabled(s, StoreFail(j)) && Quiet(s, StoreFail(j)) && u == Next(s, StoreFail(j))
    ensures u == s.(jobs := u.jobs) && |u.jobs| == |s.jobs| && u.jobs[j] == s.jobs[j].(phase := u.jobs[j].phase)
    ensures u.jobs[j].phase.Waiting? || u.jobs[j].phase.Looping?
    ensures forall k :: 0 <= k < |s.jobs| && k != j ==> u.jobs[k] == s.jobs[k]
  {
    hide Concat;
    u := Next(s, StoreFail(j));
  }

  lemma FreedAfter(s: State, u: State, t: State, j: nat)
    requires WorkerFreed(u, t) && j < |s.jobs| == |u.jobs| && s.worker == Busy(j) && !u.jobs[j].phase.Crediting?
    requires u == s.(jobs := u.jobs) && u.jobs[j].tickets == s.jobs[j].tickets
    requires forall k :: 0 <= k < |s.jobs| && k != j ==> u.jobs[k] == s.jobs[k]
    ensures WorkerFreed(s, t)
  {
    hide ChunkOf;
  }

  lemma FreeStoring(s: State, j: nat) returns (steps: seq<Step>, t: State)
    requires j < |s.jobs| && s.worker == Busy(j) && s.cancelled && s.jobs[j].ctx == Root && s.jobs[j].phase.Storing?
    ensures Quietly(s, steps) == Some(t) && WorkerFreed(s, t)
  {
    hide Concat, Enabled, Next, Quiet, WorkerFreed, Quietly;
    var u := StopFailsCall(s, j);
    var more;
    if u.jobs[j].phase.Waiting? {
      more, t := FreeWaiting(u, j);
    } else {
      more, t := FreeLooping(u, j);
    }
    FreedAfter(s, u, t, j);
    QuietNothing(s);
    QuietOneMore(s, [], s, StoreFail(j));
    QuietThen(s, [] + [StoreFail(j)], u, more);
    steps := [] + [StoreFail(j)] + more;
  }

  /** In a cancelled store the worker can end its job before it sees the stop. */
  lemma FreeWorker(s: State) returns (steps: seq<Step>, t: State)
    requires Invariant(s) && s.cancelled && (s.worker.Selecting? || s.worker.Busy?)
    ensures Quietly(s, steps) == Some(t) && WorkerFreed(s, t)
  {
    if s.worker.Selecting? {
      QuietNothing(s);
      return [], s;
    }
    var j := s.worker.job;
    assert WorkerKnown(s) && WorkerOk(s, j) && JobOk(s, j);
    hide Quietly, WorkerFreed, TicketsOk, ChunkOk, CountersOk, ChannelOk, OwnerOk;
    match s.jobs[j].phase {
      case Looping(_) => steps, t := FreeLooping(s, j);
      case Storing(_) => steps, t := FreeStoring(s, j);
      case Waiting(_) => steps, t := FreeWaiting(s, j);
      case Crediting(_) => steps, t := FreeCrediting(s, j);
    }
  }

  /** The worker has taken everything out of the channel, and written none of it. */
  predicate QueueLost(s: State, t: State) {
    && t.worker.Selecting? && t.cancelled && t.queue == [] && t.accepted == s.accepted
    && t.maxRetries == s.maxRetries && |s.jobs| <= |t.jobs|
    && (forall j :: 0 <= j < |s.jobs| ==> t.jobs[j] == s.jobs[j])
    && (forall j :: |s.jobs| <= j < |t.jobs| ==> ChunkOf(t.jobs[j].phase).None?)
  }

  lemma TakeAndGiveUp(s: State) returns (u: State)
    requires s.worker.Selecting? && s.cancelled && s.queue != []
    ensures Quietly(s, [] + [WorkerTake] + [Check(|s.jobs|)]) == Some(u)
    ensures u.worker.Selecting? && u.cancelled && u.queue == s.queue[1..] && u.accepted == s.accepted
    ensures u.maxRetries == s.maxRetries && |u.jobs| == |s.jobs| + 1
    ensures (forall j :: 0 <= j < |s.jobs| ==> u.jobs[j] == s.jobs[j]) && ChunkOf(u.jobs[|s.jobs|].phase).None?
  {
    hide Concat, Quietly;
    var n := |s.jobs|;
    var v := Next(s, WorkerTake);
    u := Next(v, Check(n));
    assert Enabled(v, Check(n)) && Quiet(v, Check(n));
    QuietNothing(s);
    QuietOneMore(s, [], s, WorkerTake);
    QuietOneMore(s, [] + [WorkerTake], v, Check(n));
  }

  lemma {:induction false} LoseQueue(s: State) returns (steps: seq<Step>, t: State)
    requires s.worker.Selecting? && s.cancelled
    ensures Quietly(s, steps) == Some(t) && QueueLost(s, t)
    decreases |s.queue|
  {
    hide Quietly;
    if s.queue == [] {
      QuietNothing(s);
      return [], s;
    }
    var u := TakeAndGiveUp(s);
    var more;
    more, t := LoseQueue(u);
    var first := [] + [WorkerTake] + [Check(|s.jobs|)];
    QuietThen(s, first, u, more);
    steps := first + more;
  }

  /** A run from Stop to the worker's return that writes as little as possible. */
  lemma LossyStop(maxRetries: int, s: State) returns (steps: seq<Step>, u: State, t: State)
    requires Reachable(maxRetries, s) && !s.cancelled
    ensures StopsQuietly(s, steps, t) && Invariant(t)
    ensures WorkerFreed(s.(cancelled := true), u) && QueueLost(u, t.(worker := Selecting))
  {
    var s1 := s.(cancelled := true);
    StopStep(maxRetries, s);
    hide Invariant, Reachable, Quietly, WorkerFreed, Next;
    var first, second, v;
    first, u := FreeWorker(s1);
    assert u.worker.Selecting? && u.cancelled by { FreedWorker(s1, u); }
    second, v := LoseQueue(u);
    t := v.(worker := Draining);
    DrainBegins(v);
    QuietThen(s1, first, u, second);
    QuietOneMore(s1, first + second, v, BeginDrain);
    steps := first + second + [BeginDrain];
    QuietRunIsRun(s1, steps, t);
    assert t.(worker := Selecting) == v;
  }

  lemma FreedWorker(s: State, u: State)
    requires WorkerFreed(s, u)
    ensures u.worker.Selecting? && u.cancelled
  {
  }

  lemma DrainBegins(s: State)
    requires s.worker.Selecting? && s.cancelled && s.queue == []
    ensures Enabled(s, BeginDrain) && Quiet(s, BeginDrain) && Next(s, BeginDrain) == s.(worker := Draining)
    ensures Enabled(s.(worker := Draining), WorkerExit)
  {
  }

  /** Such a run loses the head of the channel. */
  lemma QueueHeadLost(maxRetries: int, s: State) returns (steps: seq<Step>, t: State)
    requires Reachable(maxRetries, s) && !s.cancelled && s.queue != []
    ensures StopsQuietly(s, steps, t) && |s.owner| < |s.accepted|
    ensures !Lost(s, |s.owner|) && !Written(t, |s.owner|)
  {
    var k := |s.owner|;
    StopStep(maxRetries, s);
    NotYetLost(s, k);
    var u;
    steps, u, t := LossyStop(maxRetries, s);
    assert |s.owner| < |s.accepted| == |t.accepted| by { hide OwnerOk, JobOk, ChunkOk, WorkerOk, CountersOk; }
    hide StopsQuietly, Reachable, ChunkOk, CountersOk, WorkerOk, WorkerKnown;
    var j := TakenWhenDrained(t, k);
    if j < |s.jobs| {
      HeldBefore(s, t, j, k);
    }
    FateOfHolder(t, k, j);
  }

  lemma HeldBefore(s: State, t: State, j: nat, k: nat)
    requires Invariant(s) && j < |s.jobs| && j < |t.jobs| && t.jobs[j].tickets == s.jobs[j].tickets && Holds(t, j, k)
    ensures k < |s.owner|
  {
    OneHolder(s, j, j, k);
  }

  /** It leaves a job unwritten that was not settled. */
  lemma UnsettledUnwritten(maxRetries: int, s: State, j: nat) returns (steps: seq<Step>, t: State, k: nat)
    requires Reachable(maxRetries, s) && !s.cancelled && j < |s.jobs| && UnderWay(s.jobs[j])
    ensures StopsQuietly(s, steps, t) && k < |s.accepted| && !Lost(s, k) && !Written(t, k)
  {
    StopStep(maxRetries, s);
    k := s.jobs[j].tickets[0];
    assert JobOk(s, j) && WorkerOk(s, j);
    assert Holds(s, j, k);
    FateOfHolder(s, k, j);
    var u;
    steps, u, t := LossyStop(maxRetries, s);
    assert t.jobs[j] == u.jobs[j];
    hide StopsQuietly, Reachable, ChunkOk, CountersOk, OwnerOk;
    assert Holds(t, j, k) && ChunkOf(t.jobs[j].phase).None?;
    FateOfHolder(t, k, j);
  }

  /** When Stop is called, everything accepted so far and not yet lost is certain to be
      written by the time the worker returns, provided nothing else goes wrong, exactly
      if the channel is empty and every batch taken from it has been written or lost. */
  lemma StopWritesAcceptedIff(maxRetries: int, s: State)
    requires Reachable(maxRetries, s) && !s.cancelled
    ensures (forall steps, t | StopsQuietly(s, steps, t) :: PersistedUpTo(s, t, |s.accepted|))
            <==> s.queue == [] && Settled(s)
  {
    hide Reachable, StopsQuietly, Lost, Written;
    if s.queue != [] {
      var steps, t := QueueHeadLost(maxRetries, s);
      assert !PersistedUpTo(s, t, |s.accepted|);
    } else if !Settled(s) {
      var j: nat :| j < |s.jobs| && UnderWay(s.jobs[j]);
      var steps, t, k := UnsettledUnwritten(maxRetries, s, j);
      assert !PersistedUpTo(s, t, |s.accepted|);
    } else {
      forall steps, t | StopsQuietly(s, steps, t)
        ensures PersistedUpTo(s, t, |s.accepted|)
      {
        forall k: nat | k < |s.accepted|
          ensures Lost(s, k) || Written(t, k)
        {
          SettledPersists(maxRetries, s, steps, t, k);
        }
      }
    }
  }
}
