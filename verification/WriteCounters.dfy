/** What the flush counters of the write path measure. */
module WriteCounters {
  import opened Models
  import opened Batches
  import opened WritePath
  import opened WriteLaws

  /** The rows of the database, in commit order. */
  function Rows(log: seq<Chunk>): seq<TelemetryData> {
    if log == [] then [] else Rows(log[..|log| - 1]) + log[|log| - 1].records
  }

  /** The records carried by the jobs of a class. */
  function Loads(jobs: seq<Job>, which: Job -> bool): nat {
    if jobs == [] then 0
    else Loads(jobs[..|jobs| - 1], which) + Load(jobs[|jobs| - 1], which)
  }

  function Load(job: Job, which: Job -> bool): nat {
    if which(job) then |Concat(job.batches)| else 0
  }

  predicate FromChannel(job: Job) {
    !job.kind.FromBulk?
  }

  predicate Wrote(job: Job) {
    ChunkOf(job.phase).Some?
  }

  predicate BulkWrote(job: Job) {
    job.kind.FromBulk? && Wrote(job)
  }

  /** A writer of channel batches that returned without committing them. */
  predicate Dropped(job: Job) {
    FromChannel(job) && job.phase.Finished? && !Wrote(job)
  }

  lemma LoadsAppend(jobs: seq<Job>, job: Job, which: Job -> bool)
    ensures Loads(jobs + [job], which) == Loads(jobs, which) + Load(job, which)
  {
    assert (jobs + [job])[..|jobs|] == jobs;
  }

  lemma {:induction false} LoadsUpdate(jobs: seq<Job>, j: nat, job: Job, which: Job -> bool)
    requires j < |jobs|
    ensures Loads(jobs[j := job], which) + Load(jobs[j], which) == Loads(jobs, which) + Load(job, which)
  {
    var n := |jobs| - 1;
    if j < n {
      LoadsUpdate(jobs[..n], j, job, which);
      assert jobs[j := job][..n] == jobs[..n][j := job];
    } else {
      assert jobs[j := job][..n] == jobs[..n];
    }
  }

  lemma RowsAppend(log: seq<Chunk>, chunk: Chunk)
    ensures Rows(log + [chunk]) == Rows(log) + chunk.records
  {
    assert (log + [chunk])[..|log|] == log;
  }

  lemma {:induction false} RowsCredit(log: seq<Chunk>, c: nat)
    requires c < |log|
    ensures Rows(log[c := log[c].(credited := true)]) == Rows(log)
  {
    var n := |log| - 1;
    var log' := log[c := log[c].(credited := true)];
    if c < n {
      RowsCredit(log[..n], c);
      assert log'[..n] == log[..n][c := log[c].(credited := true)];
    } else {
      assert log'[..n] == log[..n];
    }
  }

  /** The rows are the loads of the writers that committed; the batches that left
      the channel are the loads of the writers that took them. */
  predicate Balanced(s: State) {
    && |s.owner| <= |s.accepted|
    && |Rows(s.log)| == Loads(s.jobs, Wrote)
    && |Concat(s.accepted[..|s.owner|])| == Loads(s.jobs, FromChannel)
  }

  /** One job changes phase; it has committed before exactly if it has after. */
  lemma BalanceUpdate(s: State, s': State, j: nat)
    requires Balanced(s) && j < |s.jobs| == |s'.jobs|
    requires s'.jobs == s.jobs[j := s'.jobs[j]]
    requires s'.jobs[j].batches == s.jobs[j].batches && s'.jobs[j].kind == s.jobs[j].kind
    requires Wrote(s'.jobs[j]) == Wrote(s.jobs[j])
    requires s'.owner == s.owner && s'.accepted == s.accepted && Rows(s'.log) == Rows(s.log)
    ensures Balanced(s')
  {
    LoadsUpdate(s.jobs, j, s'.jobs[j], Wrote);
    LoadsUpdate(s.jobs, j, s'.jobs[j], FromChannel);
  }

  /** A job starts with the oldest batch of the channel. */
  lemma BalanceTake(s: State, job: Job, worker: Worker)
    requires ChannelOk(s) && Balanced(s) && s.queue != []
    requires FromChannel(job) && !Wrote(job) && job.batches == [s.queue[0]]
    ensures Balanced(Take(s, |s.jobs|).(jobs := s.jobs + [job], worker := worker))
  {
    hide Loads;
    LoadsAppend(s.jobs, job, Wrote);
    LoadsAppend(s.jobs, job, FromChannel);
    assert [s.queue[0]] == [] + [s.queue[0]];
    ConcatAppend([], s.queue[0]);
    assert Concat([s.queue[0]]) == s.queue[0];
    hide Concat;
    assert s.accepted[..|s.owner| + 1] == s.accepted[..|s.owner|] + [s.queue[0]];
    ConcatAppend(s.accepted[..|s.owner|], s.queue[0]);
  }

  lemma BalanceCollect(s: State, j: nat)
    requires Invariant(s) && Balanced(s) && Enabled(s, Collect(j))
    ensures Balanced(Next(s, Collect(j)))
  {
    CollectIsFlush(s, j);
    hide JobOk, ChunkOk, WorkerOk, CountersOk;
    var s' := Next(s, Collect(j));
    LoadsUpdate(s.jobs, j, s'.jobs[j], Wrote);
    LoadsUpdate(s.jobs, j, s'.jobs[j], FromChannel);
    ConcatAppend(s.jobs[j].batches, s.queue[0]);
    assert s'.accepted[..|s'.owner|] == s.accepted[..|s.owner|] + [s.queue[0]];
    ConcatAppend(s.accepted[..|s.owner|], s.queue[0]);
  }

  lemma BalanceStart(s: State, job: Job)
    requires Balanced(s) && !Wrote(job) && (FromChannel(job) ==> job.batches == [])
    ensures Balanced(s.(jobs := s.jobs + [job]))
  {
    LoadsAppend(s.jobs, job, Wrote);
    LoadsAppend(s.jobs, job, FromChannel);
  }

  lemma BalanceStore(s: State, j: nat)
    requires Balanced(s) && Enabled(s, StoreOk(j))
    ensures Balanced(Next(s, StoreOk(j)))
  {
    hide Loads, Rows, Concat;
    var s' := Next(s, StoreOk(j));
    LoadsUpdate(s.jobs, j, s'.jobs[j], Wrote);
    LoadsUpdate(s.jobs, j, s'.jobs[j], FromChannel);
    RowsAppend(s.log, s'.log[|s.log|]);
  }

  lemma BalanceOffer(s: State, batch: Batch)
    requires Balanced(s) && batch != []
    ensures Balanced(Next(s, Offer(batch)))
  {
    var s' := Next(s, Offer(batch));
    assert s'.accepted[..|s'.owner|] == s.accepted[..|s.owner|];
  }

  /** Steps that move one job to another phase without committing. */
  lemma BalancePhase(s: State, step: Step)
    requires Balanced(s) && Enabled(s, step)
    requires step.CollectDone? || step.Expire? || step.Check? || step.StoreFail? || step.Resume? || step.GiveUp?
    ensures Balanced(Next(s, step))
  {
    hide Balanced, Concat, ContextEnded, Rows, Loads;
    BalanceUpdate(s, Next(s, step), step.job);
  }

  lemma BalanceCredit(s: State, j: nat)
    requires Balanced(s) && Enabled(s, Credit(j))
    ensures Balanced(Next(s, Credit(j)))
  {
    hide Balanced;
    if s.jobs[j].phase.chunk < |s.log| {
      RowsCredit(s.log, s.jobs[j].phase.chunk);
    }
    BalanceUpdate(s, Next(s, Credit(j)), j);
  }

  lemma BalanceRest(s: State, step: Step)
    requires Balanced(s) && Enabled(s, step)
    requires step.Count? || step.Cancel? || step.BeginDrain? || step.DrainExpire? || step.WorkerExit?
    ensures Balanced(Next(s, step))
  {
  }

  lemma StepKeepsBalance(s: State, step: Step)
    requires Invariant(s) && Balanced(s) && Enabled(s, step)
    ensures Balanced(Next(s, step))
  {
    if step.WorkerTake? {
      BalanceTake(s, Job(FromWorker, [|s.owner|], [s.queue[0]], Root, Looping(1)), Busy(|s.jobs|));
    } else if step.DrainTake? {
      BalanceTake(s, Job(FromWorker, [|s.owner|], [s.queue[0]], Drain, Looping(1)), DrainBusy(|s.jobs|));
    } else if step.Collect? {
      BalanceCollect(s, step.job);
    } else if step.FlushCall? {
      BalanceStart(s, Job(FromFlush, [], [], Own(false), Collecting));
    } else if step.BulkCall? {
      BalanceStart(s, Job(FromBulk, [], [step.records], step.ctx, Looping(1)));
    } else {
      hide Invariant, Balanced, Enabled, Next;
      if step.Offer? {
        OfferedNonEmpty(s, step);
        BalanceOffer(s, step.batch);
      } else if step.StoreOk? {
        BalanceStore(s, step.job);
      } else if step.Credit? {
        BalanceCredit(s, step.job);
      } else if step.Count? || step.Cancel? || step.BeginDrain? || step.DrainExpire? || step.WorkerExit? {
        BalanceRest(s, step);
      } else {
        BalancePhase(s, step);
      }
    }
  }

  lemma OfferedNonEmpty(s: State, step: Step)
    requires step.Offer? && Enabled(s, step)
    ensures step.batch != []
  {
  }

  lemma {:induction false} RunKeepsBalance(maxRetries: int, steps: seq<Step>)
    ensures Execute(Init(maxRetries), steps).Some? ==> Balanced(Execute(Init(maxRetries), steps).value)
  {
    if steps != [] {
      var front := steps[..|steps| - 1];
      RunKeepsBalance(maxRetries, front);
      RunKeepsInvariant(maxRetries, front);
      hide Invariant, Balanced, Enabled, Next;
      var before := Execute(Init(maxRetries), front);
      if before.Some? && Enabled(before.value, steps[|steps| - 1]) {
        StepKeepsBalance(before.value, steps[|steps| - 1]);
      }
    }
  }

  // ----- the counter laws -----

  /** In every run, pending items plus written items are the items counted when
      their batch was accepted. */
  lemma CounterLaw(maxRetries: int, s: State)
    requires Reachable(maxRetries, s)
    ensures |s.accepted| == |s.counted|
    ensures s.pendingFlushItems + s.totalDBWrites == CountedItems(s.accepted, s.counted)
    ensures s.totalDBWrites == CreditedItems(s.log)
  {
    ReachableInvariant(maxRetries, s);
  }

  /** No producer is between its send and its count, and no writer is running. */
  predicate AtRest(s: State) {
    && (forall t :: 0 <= t < |s.counted| ==> s.counted[t])
    && (forall j :: 0 <= j < |s.jobs| ==> s.jobs[j].phase.Finished?)
  }

  lemma {:induction false} AllCounted(accepted: seq<Batch>, counted: seq<bool>)
    requires |accepted| == |counted| && forall t :: 0 <= t < |counted| ==> counted[t]
    ensures CountedItems(accepted, counted) == |Concat(accepted)|
  {
    if accepted != [] {
      AllCounted(accepted[..|accepted| - 1], counted[..|accepted| - 1]);
    }
  }

  lemma {:induction false} AllCredited(log: seq<Chunk>)
    requires forall c :: 0 <= c < |log| ==> log[c].credited
    ensures CreditedItems(log) == |Rows(log)|
  {
    if log != [] {
      AllCredited(log[..|log| - 1]);
    }
  }

  lemma {:induction false} LoadsSplit(jobs: seq<Job>)
    requires forall j :: 0 <= j < |jobs| ==> jobs[j].phase.Finished?
    ensures Loads(jobs, FromChannel) + Loads(jobs, BulkWrote) == Loads(jobs, Wrote) + Loads(jobs, Dropped)
  {
    if jobs != [] {
      LoadsSplit(jobs[..|jobs| - 1]);
    }
  }

  /** At rest the write counter is the number of database rows, and the pending
      counter is what is queued, plus what was dropped, minus what bulk calls
      wrote: it counts pending items only if nothing was dropped or bulk-written. */
  lemma CountersAtRest(maxRetries: int, s: State)
    requires Reachable(maxRetries, s) && AtRest(s)
    ensures s.totalDBWrites == |Rows(s.log)|
    ensures s.pendingFlushItems == |Concat(s.queue)| + Loads(s.jobs, Dropped) - Loads(s.jobs, BulkWrote)
  {
    hide *;
    ReachableInvariant(maxRetries, s);
    ReachableBalance(maxRetries, s);
    RestFacts(s);
    AllCounted(s.accepted, s.counted);
    AllCredited(s.log);
    LoadsSplit(s.jobs);
    BalanceFacts(s);
    ConcatSplit(s.accepted[..|s.owner|], s.queue);
  }

  lemma BalanceFacts(s: State)
    requires Balanced(s)
    ensures |s.owner| <= |s.accepted|
    ensures |Rows(s.log)| == Loads(s.jobs, Wrote)
    ensures |Concat(s.accepted[..|s.owner|])| == Loads(s.jobs, FromChannel)
  {
    hide Rows, Loads, Concat;
  }

  lemma RestFacts(s: State)
    requires Invariant(s) && AtRest(s)
    ensures |s.accepted| == |s.counted| && forall t :: 0 <= t < |s.counted| ==> s.counted[t]
    ensures forall c :: 0 <= c < |s.log| ==> s.log[c].credited
    ensures forall j :: 0 <= j < |s.jobs| ==> s.jobs[j].phase.Finished?
    ensures |s.owner| <= |s.accepted| && s.accepted[..|s.owner|] + s.queue == s.accepted
    ensures s.totalDBWrites == CreditedItems(s.log)
    ensures s.pendingFlushItems + s.totalDBWrites == CountedItems(s.accepted, s.counted)
  {
    ChunksCredited(s);
    hide JobOk, ChunkOk, WorkerOk, OwnerOk, CountedItems, CreditedItems;
  }

  lemma ReachableBalance(maxRetries: int, s: State)
    requires Reachable(maxRetries, s)
    ensures Balanced(s)
  {
    var steps :| Execute(Init(maxRetries), steps) == Some(s);
    RunKeepsBalance(maxRetries, steps);
  }

  lemma ChunksCredited(s: State)
    requires Invariant(s) && AtRest(s)
    ensures forall c :: 0 <= c < |s.log| ==> s.log[c].credited
  {
    forall c | 0 <= c < |s.log|
      ensures s.log[c].credited
    {
      assert ChunkOk(s.log, s.jobs, c);
    }
  }

  // ----- the error counter -----

  function One(job: Job): nat {
    if job.phase == Finished(Exhausted) then 1 else 0
  }

  /** Writers that gave up after their last attempt. */
  function Exhaustions(jobs: seq<Job>): nat {
    if jobs == [] then 0
    else Exhaustions(jobs[..|jobs| - 1]) + One(jobs[|jobs| - 1])
  }

  lemma {:induction false} ExhaustionsUpdate(jobs: seq<Job>, j: nat, job: Job)
    requires j < |jobs|
    ensures Exhaustions(jobs[j := job]) + One(jobs[j]) == Exhaustions(jobs) + One(job)
  {
    var n := |jobs| - 1;
    if j < n {
      ExhaustionsUpdate(jobs[..n], j, job);
      assert jobs[j := job][..n] == jobs[..n][j := job];
    } else {
      assert jobs[j := job][..n] == jobs[..n];
    }
  }

  /** A step that changes one job and starts none. */
  predicate OfOneJob(step: Step) {
    step.Collect? || step.CollectDone? || step.Expire? || step.Check? || step.StoreOk? || step.StoreFail?
    || step.Resume? || step.GiveUp? || step.Credit?
  }

  lemma ErrorsStep(s: State, step: Step)
    requires Enabled(s, step)
    ensures Next(s, step).totalDBWriteErrors + Exhaustions(s.jobs)
         == s.totalDBWriteErrors + Exhaustions(Next(s, step).jobs)
  {
    var jobs := Next(s, step).jobs;
    ErrorsOf(s, step);
    hide Next, Enabled;
    if OfOneJob(step) {
      ExhaustionsUpdate(s.jobs, step.job, jobs[step.job]);
    } else if |jobs| > |s.jobs| {
      assert jobs[..|s.jobs|] == s.jobs;
    }
  }

  lemma ErrorsOf(s: State, step: Step)
    requires Enabled(s, step)
    ensures
      var s' := Next(s, step);
      if OfOneJob(step) then
        && step.job < |s.jobs| && s'.jobs == s.jobs[step.job := s'.jobs[step.job]]
        && s'.totalDBWriteErrors + One(s.jobs[step.job]) == s.totalDBWriteErrors + One(s'.jobs[step.job])
      else
        && s'.totalDBWriteErrors == s.totalDBWriteErrors
        && (s'.jobs == s.jobs || (s'.jobs == s.jobs + [s'.jobs[|s.jobs|]] && One(s'.jobs[|s.jobs|]) == 0))
  {
    if OfOneJob(step) {
      ErrorsOfOne(s, step);
    } else {
      hide Concat, ContextEnded;
    }
  }

  /** The error counter moves exactly when a writer finds that no attempt is left. */
  lemma ErrorsOfOne(s: State, step: Step)
    requires Enabled(s, step) && OfOneJob(step)
    ensures
      var s' := Next(s, step);
      && step.job < |s.jobs| && s'.jobs == s.jobs[step.job := s'.jobs[step.job]]
      && s'.totalDBWriteErrors + One(s.jobs[step.job]) == s.totalDBWriteErrors + One(s'.jobs[step.job])
  {
    hide Concat, ContextEnded;
  }

  lemma {:induction false} RunCountsErrors(maxRetries: int, steps: seq<Step>)
    ensures
      match Execute(Init(maxRetries), steps)
      case None => true
      case Some(s) => s.totalDBWriteErrors == Exhaustions(s.jobs)
  {
    if steps != [] {
      var front := steps[..|steps| - 1];
      RunCountsErrors(maxRetries, front);
      hide Enabled, Next, Exhaustions;
      var before := Execute(Init(maxRetries), front);
      if before.Some? && Enabled(before.value, steps[|steps| - 1]) {
        ErrorsStep(before.value, steps[|steps| - 1]);
      }
    }
  }

  /** In every run the error counter is the number of writers that gave up after their
      last attempt: a cancelled writer is not counted. */
  lemma ErrorsCounted(maxRetries: int, s: State)
    requires Reachable(maxRetries, s)
    ensures s.totalDBWriteErrors == Exhaustions(s.jobs)
  {
    var steps :| Execute(Init(maxRetries), steps) == Some(s);
    RunCountsErrors(maxRetries, steps);
  }

  /** The state after job `j` of `s` committed and returned. */
  function CommittedBy(s: State, j: nat): State
    requires j < |s.jobs|
  {
    var records := Concat(s.jobs[j].batches);
    s.(jobs := s.jobs[j := s.jobs[j].(phase := Finished(Committed(|s.log|)))],
       log := s.log + [Chunk(j, records, true)],
       worker := FreedBy(s, j),
       totalDBWrites := s.totalDBWrites + |records|,
       pendingFlushItems := s.pendingFlushItems - |records|)
  }

  lemma StoreThenCredit(s: State, j: nat)
    requires j < |s.jobs| && s.jobs[j].phase.Storing?
    ensures Enabled(Next(s, StoreOk(j)), Credit(j))
    ensures Next(Next(s, StoreOk(j)), Credit(j)) == CommittedBy(s, j)
  {
    hide Concat;
    var t := Next(s, StoreOk(j));
    assert t.log[|s.log|] == Chunk(j, Concat(s.jobs[j].batches), false);
    var u := Next(t, Credit(j));
    assert u.jobs == CommittedBy(s, j).jobs;
    assert u.log == CommittedBy(s, j).log;
  }

  /** An uninterrupted attempt: check, commit, adjust the counters. */
  lemma CommitRun(s: State, j: nat)
    requires j < |s.jobs| && s.jobs[j].phase.Looping? && s.jobs[j].phase.attempt <= s.maxRetries
    requires !ContextEnded(s, s.jobs[j].ctx)
    ensures Execute(s, [Check(j)] + [StoreOk(j)] + [Credit(j)]) == Some(CommittedBy(s, j))
  {
    hide Concat;
    var s1 := SetPhase(s, j, Storing(s.jobs[j].phase.attempt));
    assert Enabled(s, Check(j)) && Next(s, Check(j)) == s1;
    assert Enabled(s1, StoreOk(j));
    StoreThenCredit(s1, j);
    assert s1.jobs[j := s1.jobs[j].(phase := Finished(Committed(|s1.log|)))]
        == s.jobs[j := s.jobs[j].(phase := Finished(Committed(|s.log|)))];
    assert CommittedBy(s1, j) == CommittedBy(s, j);
    hide Next, Enabled, CommittedBy;
    ExecuteOneMore(s, [], s, Check(j));
    assert [] + [Check(j)] == [Check(j)];
    ExecuteOneMore(s, [Check(j)], s1, StoreOk(j));
    ExecuteOneMore(s, [Check(j)] + [StoreOk(j)], Next(s1, StoreOk(j)), Credit(j));
  }

  /** The pending counter can be negative: one bulk call is enough. */
  lemma PendingMayBeNegative(maxRetries: int, records: Batch)
    requires maxRetries >= 1 && records != []
    ensures exists s :: Reachable(maxRetries, s) && AtRest(s) && s.queue == [] && s.pendingFlushItems == -|records|
  {
    var call := BulkCall(records, Background);
    var s0 := Init(maxRetries);
    var s1 := s0.(jobs := [Job(FromBulk, [], [records], Background, Looping(1))]);
    assert Enabled(s0, call) && Next(s0, call) == s1;
    CommitRun(s1, 0);
    var rest := [Check(0)] + [StoreOk(0)] + [Credit(0)];
    var s2 := CommittedBy(s1, 0);
    assert [records][..0] == [] && Concat([records]) == records;
    assert AtRest(s2) && s2.queue == [] && s2.pendingFlushItems == -|records|;
    hide Next, Enabled, AtRest, CommittedBy;
    ExecuteOneMore(s0, [], s0, call);
    ExecuteThen(s0, [] + [call], s1, rest);
    assert Reachable(maxRetries, s2);
  }
}
