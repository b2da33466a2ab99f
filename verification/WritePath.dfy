/** The concurrent write path: producers, the flush worker, manual flushes and
    bulk writers share one bounded channel, one database and three counters.
    Every lock region, channel operation and store call is one step; a run is any
    interleaving of steps. */
module WritePath {
  import opened Models
  import opened Batches

  /** Which context a writer watches: none, the store's own, the one shared by the
      shutdown drain, or one of the caller. */
  datatype Ctx = Background | Root | Drain | Own(done: bool)

  datatype Outcome = Committed(chunk: nat) | NothingToWrite | ContextError | Exhausted

  /** Where a writer is in its call. */
  datatype Phase =
    | Collecting                 // draining the channel before a manual flush
    | Looping(attempt: nat)      // at the head of the retry loop
    | Storing(attempt: nat)      // about to call the repository
    | Waiting(attempt: nat)      // backing off after a failed attempt
    | Crediting(chunk: nat)      // committed, counters not yet adjusted
    | Finished(outcome: Outcome)

  datatype Kind = FromWorker | FromFlush | FromBulk

  /** One writer call: the batches it took from the channel, with the positions
      they had in acceptance order, or the single batch of a bulk call. */
  datatype Job = Job(kind: Kind, tickets: seq<nat>, batches: seq<Batch>, ctx: Ctx, phase: Phase)

  /** One committed store call. */
  datatype Chunk = Chunk(job: nat, records: Batch, credited: bool)

  datatype Worker = Selecting | Busy(job: nat) | Draining | DrainBusy(job: nat) | Exited

  /** `accepted` and `owner` are history: the batches that entered the channel, and
      the job that took each batch that left it. All jobs ever started are kept. */
  datatype State = State(
    maxRetries: int,
    accepted: seq<Batch>,
    counted: seq<bool>,
    queue: seq<Batch>,
    owner: seq<nat>,
    jobs: seq<Job>,
    log: seq<Chunk>,
    worker: Worker,
    cancelled: bool,
    drainExpired: bool,
    pendingFlushItems: int,
    totalDBWrites: int,
    totalDBWriteErrors: nat)

  function Init(maxRetries: int): State {
    State(maxRetries, [], [], [], [], [], [], Selecting, false, false, 0, 0, 0)
  }

  predicate ContextEnded(s: State, ctx: Ctx) {
    match ctx
    case Background => false
    case Root => s.cancelled
    case Drain => s.drainExpired
    case Own(done) => done
  }

  // ----- steps -----

  datatype Step =
    | Offer(batch: Batch)              // a producer's non-blocking send
    | Count(ticket: nat)               // the same producer's counter update
    | Cancel                           // Stop cancels the store's context
    | WorkerTake                       // flush worker receives in its main select
    | BeginDrain                       // flush worker sees the cancelled context
    | DrainExpire                      // the drain's own timeout fires
    | DrainTake                        // flush worker receives while draining
    | WorkerExit                       // flush worker returns
    | FlushCall                        // a manual flush starts
    | Collect(job: nat)                // it receives one batch
    | CollectDone(job: nat)            // it stops receiving
    | BulkCall(records: Batch, ctx: Ctx)
    | Expire(job: nat)                 // a caller's context ends
    | Check(job: nat)                  // loop test and context check
    | StoreOk(job: nat)                // the repository commits
    | StoreFail(job: nat)              // the repository reports an error
    | Resume(job: nat)                 // the backoff timer fires
    | GiveUp(job: nat)                 // the context ends during backoff
    | Credit(job: nat)                 // counters after a commit

  predicate Enabled(s: State, step: Step) {
    match step
    case Offer(batch) => batch != []
    case Count(t) => t < |s.counted| && !s.counted[t]
    case Cancel => true
    case WorkerTake => s.worker.Selecting? && s.queue != []
    case BeginDrain => s.worker.Selecting? && s.cancelled
    case DrainExpire => s.worker.Draining? || s.worker.DrainBusy?
    case DrainTake => s.worker.Draining? && s.queue != []
    case WorkerExit => s.worker.Draining? && (s.drainExpired || s.queue == [])
    case FlushCall => true
    case Collect(j) => j < |s.jobs| && s.jobs[j].phase.Collecting? && s.queue != []
    case CollectDone(j) => j < |s.jobs| && s.jobs[j].phase.Collecting?
    case BulkCall(records, ctx) => records != [] && (ctx == Background || ctx == Own(false))
    case Expire(j) => j < |s.jobs| && s.jobs[j].ctx.Own?
    case Check(j) => j < |s.jobs| && s.jobs[j].phase.Looping?
    case StoreOk(j) => j < |s.jobs| && s.jobs[j].phase.Storing?
    case StoreFail(j) => j < |s.jobs| && s.jobs[j].phase.Storing?
    case Resume(j) => j < |s.jobs| && s.jobs[j].phase.Waiting?
    case GiveUp(j) => j < |s.jobs| && s.jobs[j].phase.Waiting? && ContextEnded(s, s.jobs[j].ctx)
    case Credit(j) => j < |s.jobs| && s.jobs[j].phase.Crediting?
  }

  function SetPhase(s: State, j: nat, phase: Phase): State
    requires j < |s.jobs|
  {
    s.(jobs := s.jobs[j := s.jobs[j].(phase := phase)])
  }

  /** The flush worker once job `j` has returned. */
  function FreedBy(s: State, j: nat): Worker {
    if s.worker == Busy(j) then Selecting
    else if s.worker == DrainBusy(j) then Draining
    else s.worker
  }

  /** The call returns; if it was the flush worker's, the worker is free again. */
  function Finish(s: State, j: nat, outcome: Outcome): State
    requires j < |s.jobs|
  {
    SetPhase(s, j, Finished(outcome)).(worker := FreedBy(s, j))
  }

  /** The oldest batch leaves the channel for job `j`. */
  function Take(s: State, j: nat): State
    requires s.queue != []
  {
    s.(queue := s.queue[1..], owner := s.owner + [j])
  }

  function StartWorkerJob(s: State, ctx: Ctx): State
    requires s.queue != []
  {
    var j := |s.jobs|;
    Take(s, j).(jobs := s.jobs + [Job(FromWorker, [|s.owner|], [s.queue[0]], ctx, Looping(1))])
  }

  function Next(s: State, step: Step): State
    requires Enabled(s, step)
  {
    match step
    case Offer(batch) =>
      if |s.queue| < CAPACITY
      then s.(accepted := s.accepted + [batch], counted := s.counted + [false], queue := s.queue + [batch])
      else s
    case Count(t) =>
      s.(counted := s.counted[t := true],
         pendingFlushItems := s.pendingFlushItems + if t < |s.accepted| then |s.accepted[t]| else 0)
    case Cancel => s.(cancelled := true)
    case WorkerTake => StartWorkerJob(s, Root).(worker := Busy(|s.jobs|))
    case BeginDrain => s.(worker := Draining)
    case DrainExpire => s.(drainExpired := true)
    case DrainTake => StartWorkerJob(s, Drain).(worker := DrainBusy(|s.jobs|))
    case WorkerExit => s.(worker := Exited)
    case FlushCall => s.(jobs := s.jobs + [Job(FromFlush, [], [], Own(false), Collecting)])
    case Collect(j) =>
      var job := s.jobs[j];
      Take(s, j).(
        jobs := s.jobs[j := job.(tickets := job.tickets + [|s.owner|], batches := job.batches + [s.queue[0]])])
    case CollectDone(j) =>
      if Concat(s.jobs[j].batches) == [] then Finish(s, j, NothingToWrite) else SetPhase(s, j, Looping(1))
    case BulkCall(records, ctx) => s.(jobs := s.jobs + [Job(FromBulk, [], [records], ctx, Looping(1))])
    case Expire(j) => s.(jobs := s.jobs[j := s.jobs[j].(ctx := Own(true))])
    case Check(j) =>
      var attempt := s.jobs[j].phase.attempt;
      if attempt > s.maxRetries then
        Finish(s, j, Exhausted).(totalDBWriteErrors := s.totalDBWriteErrors + 1)
      else if ContextEnded(s, s.jobs[j].ctx) then Finish(s, j, ContextError)
      else SetPhase(s, j, Storing(attempt))
    case StoreOk(j) =>
      SetPhase(s, j, Crediting(|s.log|)).(log := s.log + [Chunk(j, Concat(s.jobs[j].batches), false)])
    case StoreFail(j) =>
      var attempt := s.jobs[j].phase.attempt;
      SetPhase(s, j, if attempt < s.maxRetries then Waiting(attempt) else Looping(attempt + 1))
    case Resume(j) => SetPhase(s, j, Looping(s.jobs[j].phase.attempt + 1))
    case GiveUp(j) => Finish(s, j, ContextError)
    case Credit(j) =>
      var c := s.jobs[j].phase.chunk;
      var n := if c < |s.log| then |s.log[c].records| else 0;
      Finish(s, j, Committed(c)).(
        log := if c < |s.log| then s.log[c := s.log[c].(credited := true)] else s.log,
        totalDBWrites := s.totalDBWrites + n,
        pendingFlushItems := s.pendingFlushItems - n)
  }

  // ----- runs -----

  /** The state after the steps, if each was possible when its turn came. */
  function Execute(s: State, steps: seq<Step>): Option<State> {
    if steps == [] then Some(s)
    else
      match Execute(s, steps[..|steps| - 1])
      case None => None
      case Some(t) => if Enabled(t, steps[|steps| - 1]) then Some(Next(t, steps[|steps| - 1])) else None
  }

  lemma ExecuteOneMore(s: State, steps: seq<Step>, t: State, step: Step)
    requires Execute(s, steps) == Some(t) && Enabled(t, step)
    ensures Execute(s, steps + [step]) == Some(Next(t, step))
  {
    assert (steps + [step])[..|steps|] == steps;
  }

  lemma {:induction false} ExecuteThen(s: State, steps: seq<Step>, t: State, more: seq<Step>)
    requires Execute(s, steps) == Some(t)
    ensures Execute(s, steps + more) == Execute(t, more)
  {
    hide Enabled, Next;
    if more == [] {
      assert steps + more == steps;
    } else {
      ExecuteThen(s, steps, t, more[..|more| - 1]);
      assert (steps + more)[..|steps + more| - 1] == steps + more[..|more| - 1];
    }
  }

  ghost predicate Reachable(maxRetries: int, s: State) {
    exists steps :: Execute(Init(maxRetries), steps) == Some(s)
  }

  // ----- what every step keeps -----

  /** The chunk a job has written, if it has. */
  function ChunkOf(phase: Phase): Option<nat> {
    match phase
    case Crediting(c) => Some(c)
    case Finished(Committed(c)) => Some(c)
    case _ => None
  }

  predicate ChannelOk(s: State) {
    && |s.queue| <= CAPACITY
    && |s.owner| + |s.queue| == |s.accepted| == |s.counted|
    && s.queue == s.accepted[|s.owner|..]
    && forall t :: 0 <= t < |s.accepted| ==> s.accepted[t] != []
  }

  /** Every batch that left the channel is in exactly the job that took it. */
  predicate OwnerOk(s: State) {
    forall t :: 0 <= t < |s.owner| ==> s.owner[t] < |s.jobs| && t in s.jobs[s.owner[t]].tickets
  }

  predicate TicketsOk(accepted: seq<Batch>, owner: seq<nat>, j: nat, job: Job) {
    && (forall i :: 0 <= i < |job.tickets| ==> job.tickets[i] < |owner| && owner[job.tickets[i]] == j)
    && (forall i, k :: 0 <= i < k < |job.tickets| ==> job.tickets[i] < job.tickets[k])
    && if job.kind.FromBulk? then
         job.tickets == [] && |job.batches| == 1 && job.batches[0] != []
       else
         && |job.batches| == |job.tickets| && |owner| <= |accepted|
         && forall i :: 0 <= i < |job.tickets| ==>
              job.tickets[i] < |owner| && job.batches[i] == accepted[job.tickets[i]]
  }

  predicate PhaseOk(maxRetries: int, log: seq<Chunk>, j: nat, job: Job) {
    match job.phase
    case Collecting => job.kind.FromFlush?
    case Looping(a) => job.batches != [] && a >= 1 && (a == 1 || a <= maxRetries + 1)
    case Storing(a) => job.batches != [] && 1 <= a <= maxRetries
    case Waiting(a) => job.batches != [] && 1 <= a < maxRetries
    case Crediting(c) => job.batches != [] && c < |log| && log[c].job == j
    case Finished(Committed(c)) => job.batches != [] && c < |log| && log[c].job == j
    case Finished(NothingToWrite) => job.batches == []
    case Finished(_) => job.batches != []
  }

  predicate JobOk(s: State, j: nat)
    requires j < |s.jobs|
  {
    && TicketsOk(s.accepted, s.owner, j, s.jobs[j])
    && PhaseOk(s.maxRetries, s.log, j, s.jobs[j])
  }

  /** A chunk is exactly the payload of the one job that wrote it. */
  predicate ChunkOk(log: seq<Chunk>, jobs: seq<Job>, c: nat)
    requires c < |log|
  {
    && log[c].job < |jobs|
    && ChunkOf(jobs[log[c].job].phase) == Some(c)
    && log[c].records == Concat(jobs[log[c].job].batches)
    && (log[c].credited <==> jobs[log[c].job].phase.Finished?)
  }

  predicate IsWorkers(s: State, j: nat) {
    s.worker == Busy(j) || s.worker == DrainBusy(j)
  }

  /** The flush worker runs one job at a time, with one batch, under its own context. */
  predicate WorkerOk(s: State, j: nat)
    requires j < |s.jobs|
  {
    && (s.jobs[j].kind.FromWorker? ==>
          && |s.jobs[j].tickets| == 1 && (s.jobs[j].ctx == Root || s.jobs[j].ctx == Drain)
          && (IsWorkers(s, j) || s.jobs[j].phase.Finished?))
    && (s.jobs[j].kind.FromFlush? ==> s.jobs[j].ctx.Own?)
    && (s.jobs[j].kind.FromBulk? ==> s.jobs[j].ctx.Own? || s.jobs[j].ctx.Background?)
    && (s.worker == Busy(j) ==>
          s.jobs[j].kind.FromWorker? && s.jobs[j].ctx == Root && !s.jobs[j].phase.Finished?)
    && (s.worker == DrainBusy(j) ==>
          s.jobs[j].kind.FromWorker? && s.jobs[j].ctx == Drain && !s.jobs[j].phase.Finished?)
  }

  predicate WorkerKnown(s: State) {
    && (s.worker.Busy? || s.worker.DrainBusy? ==> s.worker.job < |s.jobs|)
    && (s.worker.Draining? || s.worker.DrainBusy? || s.worker.Exited? ==> s.cancelled)
    && (s.drainExpired ==> s.worker.Draining? || s.worker.DrainBusy? || s.worker.Exited?)
  }

  /** Items of the batches whose producer has counted them. */
  function CountedItems(accepted: seq<Batch>, counted: seq<bool>): nat
    requires |accepted| == |counted|
  {
    if accepted == [] then 0
    else
      var n := |accepted| - 1;
      CountedItems(accepted[..n], counted[..n]) + if counted[n] then |accepted[n]| else 0
  }

  /** Records of the chunks whose writer has adjusted the counters. */
  function CreditedItems(log: seq<Chunk>): nat {
    if log == [] then 0
    else
      var n := |log| - 1;
      CreditedItems(log[..n]) + if log[n].credited then |log[n].records| else 0
  }

  predicate CountersOk(s: State) {
    && |s.accepted| == |s.counted|
    && s.totalDBWrites == CreditedItems(s.log)
    && s.pendingFlushItems + s.totalDBWrites == CountedItems(s.accepted, s.counted)
  }

  predicate Invariant(s: State) {
    && ChannelOk(s)
    && OwnerOk(s)
    && (forall j :: 0 <= j < |s.jobs| ==> JobOk(s, j))
    && (forall c :: 0 <= c < |s.log| ==> ChunkOk(s.log, s.jobs, c))
    && (forall j :: 0 <= j < |s.jobs| ==> WorkerOk(s, j))
    && WorkerKnown(s)
    && CountersOk(s)
  }

  // ----- sums -----

  lemma {:induction false} CountedUpdate(accepted: seq<Batch>, counted: seq<bool>, t: nat)
    requires |accepted| == |counted| && t < |counted| && !counted[t]
    ensures CountedItems(accepted, counted[t := true]) == CountedItems(accepted, counted) + |accepted[t]|
  {
    var n := |accepted| - 1;
    if t < n {
      CountedUpdate(accepted[..n], counted[..n], t);
      assert counted[t := true][..n] == counted[..n][t := true];
    } else {
      assert counted[t := true][..n] == counted[..n];
    }
  }

  lemma CountedAppend(accepted: seq<Batch>, counted: seq<bool>, batch: Batch)
    requires |accepted| == |counted|
    ensures CountedItems(accepted + [batch], counted + [false]) == CountedItems(accepted, counted)
  {
    assert (accepted + [batch])[..|accepted|] == accepted && (counted + [false])[..|accepted|] == counted;
  }

  lemma {:induction false} CreditedUpdate(log: seq<Chunk>, c: nat)
    requires c < |log| && !log[c].credited
    ensures CreditedItems(log[c := log[c].(credited := true)]) == CreditedItems(log) + |log[c].records|
  {
    var n := |log| - 1;
    var log' := log[c := log[c].(credited := true)];
    if c < n {
      CreditedUpdate(log[..n], c);
      assert log'[..n] == log[..n][c := log[c].(credited := true)];
    } else {
      assert log'[..n] == log[..n];
    }
  }

  lemma CreditedAppend(log: seq<Chunk>, chunk: Chunk)
    requires !chunk.credited
    ensures CreditedItems(log + [chunk]) == CreditedItems(log)
  {
    assert (log + [chunk])[..|log|] == log;
  }

  // ----- every step keeps the invariant -----

  lemma InitInvariant(maxRetries: int)
    ensures Invariant(Init(maxRetries))
  {
  }

  lemma KeepOffer(s: State, batch: Batch)
    requires Invariant(s) && batch != []
    ensures Invariant(Next(s, Offer(batch)))
  {
    hide Concat, PhaseOk, ChunkOk, WorkerOk;
    var s' := Next(s, Offer(batch));
    if |s.queue| < CAPACITY {
      CountedAppend(s.accepted, s.counted, batch);
      assert s'.accepted[|s'.owner|..] == s.accepted[|s.owner|..] + [batch];
      forall j | 0 <= j < |s'.jobs|
        ensures JobOk(s', j) && WorkerOk(s', j)
      {
        assert JobOk(s, j) && WorkerOk(s, j);
        WorkerFrame(s, s', j);
      }
    }
  }

  lemma WorkerFrame(s: State, s': State, j: nat)
    requires j < |s.jobs| && j < |s'.jobs| && s'.jobs[j] == s.jobs[j] && s'.worker == s.worker && WorkerOk(s, j)
    ensures WorkerOk(s', j)
  {
  }

  lemma KeepCount(s: State, t: nat)
    requires Invariant(s) && Enabled(s, Count(t))
    ensures Invariant(Next(s, Count(t)))
  {
    hide Concat, PhaseOk, TicketsOk, ChunkOk, WorkerOk;
    CountedUpdate(s.accepted, s.counted, t);
    var s' := Next(s, Count(t));
    forall j | 0 <= j < |s'.jobs|
      ensures JobOk(s', j) && WorkerOk(s', j)
    {
      assert JobOk(s, j) && WorkerOk(s, j);
      WorkerFrame(s, s', j);
    }
  }

  /** Steps that only change the worker's mode or a flag. */
  lemma KeepFlags(s: State, step: Step)
    requires Invariant(s) && Enabled(s, step)
    requires step.Cancel? || step.BeginDrain? || step.DrainExpire? || step.WorkerExit?
    ensures Invariant(Next(s, step))
  {
    hide Concat, PhaseOk, TicketsOk, ChunkOk;
    var s' := Next(s, step);
    forall j | 0 <= j < |s'.jobs|
      ensures JobOk(s', j) && WorkerOk(s', j)
    {
      assert JobOk(s, j) && WorkerOk(s, j);
    }
  }

  /** A new job with no ticket yet, or the one ticket just taken. */
  lemma KeepStart(s: State, job: Job, worker: Worker, taken: bool)
    requires Invariant(s) && (taken ==> s.queue != [])
    requires
      if taken then
        && job == Job(FromWorker, [|s.owner|], [s.queue[0]], job.ctx, Looping(1))
        && ((s.worker.Selecting? && job.ctx == Root && worker == Busy(|s.jobs|))
            || (s.worker.Draining? && job.ctx == Drain && worker == DrainBusy(|s.jobs|)))
      else
        && worker == s.worker
        && (job == Job(FromFlush, [], [], Own(false), Collecting)
            || (job.kind.FromBulk? && job.tickets == [] && |job.batches| == 1 && job.batches[0] != []
                && (job.ctx == Background || job.ctx == Own(false)) && job.phase == Looping(1)))
    ensures Invariant((if taken then Take(s, |s.jobs|) else s).(jobs := s.jobs + [job], worker := worker))
  {
    hide Concat;
    var s' := (if taken then Take(s, |s.jobs|) else s).(jobs := s.jobs + [job], worker := worker);
    if taken {
      assert s'.queue == s'.accepted[|s'.owner|..];
      assert s.queue[0] == s.accepted[|s.owner|];
    }
    forall j | 0 <= j < |s'.jobs|
      ensures JobOk(s', j) && WorkerOk(s', j)
    {
      if j < |s.jobs| {
        assert JobOk(s, j) && WorkerOk(s, j);
      }
    }
    forall c | 0 <= c < |s'.log|
      ensures ChunkOk(s'.log, s'.jobs, c)
    {
      assert ChunkOk(s.log, s.jobs, c);
    }
  }

  lemma CollectTickets(s: State, j: nat, k: nat)
    requires Invariant(s) && Enabled(s, Collect(j)) && k < |s.jobs|
    ensures
      var s' := Next(s, Collect(j));
      TicketsOk(s'.accepted, s'.owner, k, s'.jobs[k])
  {
    hide Concat, ChunkOk, WorkerOk, CountersOk, OwnerOk, ContextEnded;
    assert JobOk(s, j) && JobOk(s, k);
    assert !s.jobs[j].kind.FromBulk? && s.queue[0] == s.accepted[|s.owner|];
    hide PhaseOk, Invariant;
  }

  lemma CollectOwner(s: State, j: nat)
    requires Invariant(s) && Enabled(s, Collect(j))
    ensures OwnerOk(Next(s, Collect(j))) && ChannelOk(Next(s, Collect(j)))
  {
    hide Concat, ChunkOk, WorkerOk, CountersOk, JobOk;
    var s' := Next(s, Collect(j));
    assert s'.queue == s'.accepted[|s'.owner|..];
    forall t | 0 <= t < |s'.owner|
      ensures s'.owner[t] < |s'.jobs| && t in s'.jobs[s'.owner[t]].tickets
    {
      if t == |s.owner| {
        assert s'.jobs[j].tickets[|s.jobs[j].tickets|] == t;
      }
    }
  }

  lemma KeepCollect(s: State, j: nat)
    requires Invariant(s) && Enabled(s, Collect(j))
    ensures Invariant(Next(s, Collect(j)))
  {
    hide Concat, TicketsOk, OwnerOk, ChannelOk;
    var s' := Next(s, Collect(j));
    CollectOwner(s, j);
    forall k | 0 <= k < |s'.jobs|
      ensures JobOk(s', k) && WorkerOk(s', k)
    {
      assert JobOk(s, k) && WorkerOk(s, k);
      CollectTickets(s, j, k);
    }
    forall c | 0 <= c < |s'.log|
      ensures ChunkOk(s'.log, s'.jobs, c)
    {
      assert ChunkOk(s.log, s.jobs, c);
    }
  }

  /** Moving a job that has not committed to another phase, or to a failed end. */
  lemma KeepPhase(s: State, j: nat, phase: Phase)
    requires Invariant(s) && j < |s.jobs|
    requires ChunkOf(s.jobs[j].phase).None? && !s.jobs[j].phase.Finished?
    requires ChunkOf(phase).None? && PhaseOk(s.maxRetries, s.log, j, s.jobs[j].(phase := phase))
    ensures !phase.Finished? ==> Invariant(SetPhase(s, j, phase))
    ensures phase.Finished? ==> Invariant(Finish(s, j, phase.outcome))
  {
    hide Concat, TicketsOk;
    var s' := if phase.Finished? then Finish(s, j, phase.outcome) else SetPhase(s, j, phase);
    forall k | 0 <= k < |s'.jobs|
      ensures JobOk(s', k) && WorkerOk(s', k)
    {
      assert JobOk(s, k) && WorkerOk(s, k) && WorkerOk(s, j);
      TicketsFrame(s.accepted, s.owner, k, s.jobs[k], s'.jobs[k]);
    }
    forall c | 0 <= c < |s'.log|
      ensures ChunkOk(s'.log, s'.jobs, c)
    {
      assert ChunkOk(s.log, s.jobs, c);
    }
  }

  lemma TicketsFrame(accepted: seq<Batch>, owner: seq<nat>, j: nat, job: Job, job': Job)
    requires TicketsOk(accepted, owner, j, job)
    requires job'.kind == job.kind && job'.tickets == job.tickets && job'.batches == job.batches
    ensures TicketsOk(accepted, owner, j, job')
  {
  }

  lemma KeepExpire(s: State, j: nat)
    requires Invariant(s) && Enabled(s, Expire(j))
    ensures Invariant(Next(s, Expire(j)))
  {
    hide Concat, TicketsOk;
    var s' := Next(s, Expire(j));
    forall k | 0 <= k < |s'.jobs|
      ensures JobOk(s', k) && WorkerOk(s', k)
    {
      assert JobOk(s, k) && WorkerOk(s, k);
      TicketsFrame(s.accepted, s.owner, k, s.jobs[k], s'.jobs[k]);
    }
    forall c | 0 <= c < |s'.log|
      ensures ChunkOk(s'.log, s'.jobs, c)
    {
      assert ChunkOk(s.log, s.jobs, c);
    }
  }

  lemma StoreOkJobs(s: State, j: nat, k: nat)
    requires Invariant(s) && Enabled(s, StoreOk(j)) && k < |s.jobs|
    ensures JobOk(Next(s, StoreOk(j)), k) && WorkerOk(Next(s, StoreOk(j)), k)
  {
    hide Concat, TicketsOk, ChunkOk, CountersOk, OwnerOk, ChannelOk;
    var s' := Next(s, StoreOk(j));
    assert JobOk(s, k) && WorkerOk(s, k) && JobOk(s, j) && WorkerOk(s, j);
    TicketsFrame(s.accepted, s.owner, k, s.jobs[k], s'.jobs[k]);
  }

  lemma StoreOkChunks(s: State, j: nat, d: nat)
    requires Invariant(s) && Enabled(s, StoreOk(j)) && d <= |s.log|
    ensures d < |Next(s, StoreOk(j)).log| && ChunkOk(Next(s, StoreOk(j)).log, Next(s, StoreOk(j)).jobs, d)
  {
    assert JobOk(s, j);
    if d < |s.log| {
      assert ChunkOk(s.log, s.jobs, d);
    }
    hide Concat, TicketsOk, WorkerOk, CountersOk, OwnerOk, ChannelOk, Invariant;
  }

  /** What a commit leaves in order, apart from the jobs and the chunks. */
  lemma StoreOkRest(s: State, j: nat)
    requires Invariant(s) && Enabled(s, StoreOk(j))
    ensures
      var s' := Next(s, StoreOk(j));
      && |s'.jobs| == |s.jobs| && |s'.log| == |s.log| + 1
      && ChannelOk(s') && OwnerOk(s') && WorkerKnown(s') && CountersOk(s')
  {
    hide Concat, TicketsOk, PhaseOk, WorkerOk, JobOk, ChunkOk;
    CreditedAppend(s.log, Chunk(j, Concat(s.jobs[j].batches), false));
    hide Invariant, CreditedItems, CountedItems;
  }

  lemma KeepStoreOk(s: State, j: nat)
    requires Invariant(s) && Enabled(s, StoreOk(j))
    ensures Invariant(Next(s, StoreOk(j)))
  {
    StoreOkRest(s, j);
    hide Next, Enabled, JobOk, ChunkOk, WorkerOk, ChannelOk, OwnerOk, WorkerKnown, CountersOk;
    var s' := Next(s, StoreOk(j));
    forall k: nat | k < |s'.jobs|
      ensures JobOk(s', k) && WorkerOk(s', k)
    {
      StoreOkJobs(s, j, k);
    }
    forall d: nat | d < |s'.log|
      ensures ChunkOk(s'.log, s'.jobs, d)
    {
      StoreOkChunks(s, j, d);
    }
  }

  lemma CreditJobs(s: State, j: nat, k: nat)
    requires Invariant(s) && Enabled(s, Credit(j)) && k < |s.jobs|
    ensures JobOk(Next(s, Credit(j)), k) && WorkerOk(Next(s, Credit(j)), k)
  {
    hide Concat, TicketsOk, ChunkOk, CountersOk, OwnerOk, ChannelOk;
    var s' := Next(s, Credit(j));
    assert JobOk(s, k) && WorkerOk(s, k) && JobOk(s, j) && WorkerOk(s, j);
    TicketsFrame(s.accepted, s.owner, k, s.jobs[k], s'.jobs[k]);
  }

  lemma CreditChunks(s: State, j: nat, d: nat)
    requires Invariant(s) && Enabled(s, Credit(j)) && d < |s.log|
    ensures ChunkOk(Next(s, Credit(j)).log, Next(s, Credit(j)).jobs, d)
  {
    hide Concat, TicketsOk, WorkerOk, CountersOk, OwnerOk, ChannelOk;
    assert ChunkOk(s.log, s.jobs, d) && JobOk(s, j);
    assert ChunkOk(s.log, s.jobs, s.jobs[j].phase.chunk);
  }

  lemma KeepCredit(s: State, j: nat)
    requires Invariant(s) && Enabled(s, Credit(j))
    ensures Invariant(Next(s, Credit(j)))
  {
    hide Concat, TicketsOk, WorkerOk;
    var s' := Next(s, Credit(j));
    var c := s.jobs[j].phase.chunk;
    assert JobOk(s, j) && ChunkOk(s.log, s.jobs, c);
    CreditedUpdate(s.log, c);
    hide JobOk, ChunkOk;
    forall k | 0 <= k < |s'.jobs|
      ensures JobOk(s', k) && WorkerOk(s', k)
    {
      CreditJobs(s, j, k);
    }
    forall d | 0 <= d < |s'.log|
      ensures ChunkOk(s'.log, s'.jobs, d)
    {
      CreditChunks(s, j, d);
    }
  }

  lemma KeepCollectDone(s: State, j: nat)
    requires Invariant(s) && Enabled(s, CollectDone(j))
    ensures Invariant(Next(s, CollectDone(j)))
  {
    assert JobOk(s, j);
    assert forall i :: 0 <= i < |s.jobs[j].batches| ==> s.jobs[j].batches[i] != [];
    ConcatEmpty(s.jobs[j].batches);
    KeepPhase(s, j, if Concat(s.jobs[j].batches) == [] then Finished(NothingToWrite) else Looping(1));
  }

  lemma KeepErrorCount(s: State, errors: nat)
    requires Invariant(s)
    ensures Invariant(s.(totalDBWriteErrors := errors))
  {
    hide Concat, TicketsOk, PhaseOk, ChunkOk;
    var s' := s.(totalDBWriteErrors := errors);
    forall j | 0 <= j < |s'.jobs|
      ensures JobOk(s', j) && WorkerOk(s', j)
    {
      assert JobOk(s, j) && WorkerOk(s, j);
    }
  }

  lemma KeepCheck(s: State, j: nat)
    requires Invariant(s) && Enabled(s, Check(j))
    ensures Invariant(Next(s, Check(j)))
  {
    assert JobOk(s, j);
    hide Invariant;
    var attempt := s.jobs[j].phase.attempt;
    if attempt > s.maxRetries {
      KeepPhase(s, j, Finished(Exhausted));
      KeepErrorCount(Finish(s, j, Exhausted), s.totalDBWriteErrors + 1);
    } else {
      KeepPhase(s, j, if ContextEnded(s, s.jobs[j].ctx) then Finished(ContextError) else Storing(attempt));
    }
  }

  /** A failed attempt, and what follows it. */
  lemma KeepRetry(s: State, step: Step)
    requires Invariant(s) && Enabled(s, step)
    requires step.StoreFail? || step.Resume? || step.GiveUp?
    ensures Invariant(Next(s, step))
  {
    var j := step.job;
    assert JobOk(s, j);
    hide Invariant;
    match step
    case StoreFail(_) =>
      var attempt := s.jobs[j].phase.attempt;
      KeepPhase(s, j, if attempt < s.maxRetries then Waiting(attempt) else Looping(attempt + 1));
    case Resume(_) => KeepPhase(s, j, Looping(s.jobs[j].phase.attempt + 1));
    case GiveUp(_) => KeepPhase(s, j, Finished(ContextError));
  }

  lemma StepKeepsInvariant(s: State, step: Step)
    requires Invariant(s) && Enabled(s, step)
    ensures Invariant(Next(s, step))
  {
    hide Invariant;
    match step
    case Offer(batch) => KeepOffer(s, batch);
    case Count(t) => KeepCount(s, t);
    case Cancel => KeepFlags(s, step);
    case BeginDrain => KeepFlags(s, step);
    case DrainExpire => KeepFlags(s, step);
    case WorkerExit => KeepFlags(s, step);
    case WorkerTake => KeepStart(s, Job(FromWorker, [|s.owner|], [s.queue[0]], Root, Looping(1)), Busy(|s.jobs|), true);
    case DrainTake =>
      KeepStart(s, Job(FromWorker, [|s.owner|], [s.queue[0]], Drain, Looping(1)), DrainBusy(|s.jobs|), true);
    case FlushCall => KeepStart(s, Job(FromFlush, [], [], Own(false), Collecting), s.worker, false);
    case BulkCall(records, ctx) => KeepStart(s, Job(FromBulk, [], [records], ctx, Looping(1)), s.worker, false);
    case Collect(j) => KeepCollect(s, j);
    case CollectDone(j) => KeepCollectDone(s, j);
    case Expire(j) => KeepExpire(s, j);
    case StoreOk(j) => KeepStoreOk(s, j);
    case Credit(j) => KeepCredit(s, j);
    case Check(j) => KeepCheck(s, j);
    case StoreFail(_) => KeepRetry(s, step);
    case Resume(_) => KeepRetry(s, step);
    case GiveUp(_) => KeepRetry(s, step);
  }

  // ----- what a step does to one job -----

  function PhaseAfter(s: State, step: Step, j: nat): Phase
    requires Enabled(s, step) && j < |s.jobs|
  {
    match step
    case CollectDone(k) =>
      if k != j then s.jobs[j].phase
      else if Concat(s.jobs[j].batches) == [] then Finished(NothingToWrite) else Looping(1)
    case Check(k) =>
      if k != j then s.jobs[j].phase
      else if s.jobs[j].phase.attempt > s.maxRetries then Finished(Exhausted)
      else if ContextEnded(s, s.jobs[j].ctx) then Finished(ContextError)
      else Storing(s.jobs[j].phase.attempt)
    case StoreOk(k) => if k != j then s.jobs[j].phase else Crediting(|s.log|)
    case StoreFail(k) =>
      if k != j then s.jobs[j].phase
      else if s.jobs[j].phase.attempt < s.maxRetries then Waiting(s.jobs[j].phase.attempt)
      else Looping(s.jobs[j].phase.attempt + 1)
    case Resume(k) => if k != j then s.jobs[j].phase else Looping(s.jobs[j].phase.attempt + 1)
    case GiveUp(k) => if k != j then s.jobs[j].phase else Finished(ContextError)
    case Credit(k) => if k != j then s.jobs[j].phase else Finished(Committed(s.jobs[j].phase.chunk))
    case _ => s.jobs[j].phase
  }

  /** The jobs after a step: one more, or one changed, or the same. */
  function JobsAfter(s: State, step: Step): seq<Job>
    requires Enabled(s, step)
  {
    match step
    case WorkerTake => s.jobs + [Job(FromWorker, [|s.owner|], [s.queue[0]], Root, Looping(1))]
    case DrainTake => s.jobs + [Job(FromWorker, [|s.owner|], [s.queue[0]], Drain, Looping(1))]
    case FlushCall => s.jobs + [Job(FromFlush, [], [], Own(false), Collecting)]
    case BulkCall(records, ctx) => s.jobs + [Job(FromBulk, [], [records], ctx, Looping(1))]
    case Collect(k) =>
      var job := s.jobs[k];
      s.jobs[k := job.(tickets := job.tickets + [|s.owner|], batches := job.batches + [s.queue[0]])]
    case Expire(k) => s.jobs[k := s.jobs[k].(ctx := Own(true))]
    case CollectDone(k) => s.jobs[k := s.jobs[k].(phase := PhaseAfter(s, step, k))]
    case Check(k) => s.jobs[k := s.jobs[k].(phase := PhaseAfter(s, step, k))]
    case StoreOk(k) => s.jobs[k := s.jobs[k].(phase := PhaseAfter(s, step, k))]
    case StoreFail(k) => s.jobs[k := s.jobs[k].(phase := PhaseAfter(s, step, k))]
    case Resume(k) => s.jobs[k := s.jobs[k].(phase := PhaseAfter(s, step, k))]
    case GiveUp(k) => s.jobs[k := s.jobs[k].(phase := PhaseAfter(s, step, k))]
    case Credit(k) => s.jobs[k := s.jobs[k].(phase := PhaseAfter(s, step, k))]
    case _ => s.jobs
  }

  lemma NextJobs(s: State, step: Step)
    requires Enabled(s, step)
    ensures Next(s, step).jobs == JobsAfter(s, step) && Next(s, step).maxRetries == s.maxRetries
  {
    hide Concat, ContextEnded;
  }

  lemma JobStepPhase(s: State, step: Step, j: nat)
    requires Enabled(s, step) && j < |s.jobs|
    ensures j < |Next(s, step).jobs| && Next(s, step).jobs[j].phase == PhaseAfter(s, step, j)
  {
    NextJobs(s, step);
    hide Next, Concat, ContextEnded;
  }

  lemma JobStepFrame(s: State, step: Step, j: nat)
    requires Enabled(s, step) && j < |s.jobs|
    ensures j < |Next(s, step).jobs| && Next(s, step).jobs[j].kind == s.jobs[j].kind
    ensures step != Collect(j) ==>
              Next(s, step).jobs[j].tickets == s.jobs[j].tickets && Next(s, step).jobs[j].batches == s.jobs[j].batches
    ensures Next(s, step).jobs[j].ctx == if step == Expire(j) then Own(true) else s.jobs[j].ctx
  {
    NextJobs(s, step);
    hide Next, Concat, ContextEnded, PhaseAfter;
  }

  /** What has ended stays ended. */
  lemma FlagsStay(s: State, step: Step)
    requires Enabled(s, step)
    ensures s.cancelled ==> Next(s, step).cancelled
    ensures s.drainExpired ==> Next(s, step).drainExpired
  {
    hide Concat, ContextEnded;
  }

  /** A step changes at most one job, and of that only the phase, unless the job
      is collecting or its caller's context ends; contexts never come back. */
  lemma JobStep(s: State, step: Step, j: nat)
    requires Enabled(s, step) && j < |s.jobs|
    ensures j < |Next(s, step).jobs| && Next(s, step).maxRetries == s.maxRetries
    ensures Next(s, step).jobs[j].phase == PhaseAfter(s, step, j)
    ensures Next(s, step).jobs[j].kind == s.jobs[j].kind
    ensures step != Collect(j) ==>
              Next(s, step).jobs[j].tickets == s.jobs[j].tickets && Next(s, step).jobs[j].batches == s.jobs[j].batches
    ensures ContextEnded(s, s.jobs[j].ctx) ==> ContextEnded(Next(s, step), Next(s, step).jobs[j].ctx)
  {
    JobStepPhase(s, step, j);
    JobStepFrame(s, step, j);
    FlagsStay(s, step);
    NewJobStep(s, step);
    hide Next, Enabled, Concat, PhaseAfter;
  }

  /** A step starts at most one job, from its beginning. */
  lemma NewJobStep(s: State, step: Step)
    requires Enabled(s, step)
    ensures |Next(s, step).jobs| <= |s.jobs| + 1
    ensures |Next(s, step).jobs| == |s.jobs| + 1 ==>
              var job := Next(s, step).jobs[|s.jobs|];
              job.phase == Looping(1) || job.phase == Collecting
    ensures |Next(s, step).jobs| == |s.jobs| + 1 <==>
              step.WorkerTake? || step.DrainTake? || step.FlushCall? || step.BulkCall?
    ensures Next(s, step).maxRetries == s.maxRetries
  {
    NextJobs(s, step);
    hide Next, Concat, ContextEnded, PhaseAfter;
  }

  lemma {:induction false} InvariantThrough(s: State, steps: seq<Step>)
    requires Invariant(s)
    ensures Execute(s, steps).Some? ==> Invariant(Execute(s, steps).value)
  {
    if steps != [] {
      InvariantThrough(s, steps[..|steps| - 1]);
      hide Invariant, Enabled, Next;
      var before := Execute(s, steps[..|steps| - 1]);
      if before.Some? && Enabled(before.value, steps[|steps| - 1]) {
        StepKeepsInvariant(before.value, steps[|steps| - 1]);
      }
    }
  }

  /** The invariant holds after every run. */
  lemma RunKeepsInvariant(maxRetries: int, steps: seq<Step>)
    ensures Execute(Init(maxRetries), steps).Some? ==> Invariant(Execute(Init(maxRetries), steps).value)
  {
    InitInvariant(maxRetries);
    InvariantThrough(Init(maxRetries), steps);
  }
}
