/** What every run of the write path guarantees: where each accepted batch is, in which
    order batches reach the database, and how often a call tries. */
module WriteLaws {
  import opened Models
  import opened Batches
  import opened WritePath

  lemma ReachableInvariant(maxRetries: int, s: State)
    requires Reachable(maxRetries, s)
    ensures Invariant(s)
  {
    var steps :| Execute(Init(maxRetries), steps) == Some(s);
    RunKeepsInvariant(maxRetries, steps);
  }

  // ----- conservation -----

  /** The batch accepted as number `t` is still in the channel. */
  predicate Queued(s: State, t: nat) {
    |s.accepted| - |s.queue| <= t < |s.accepted| && s.queue[t - (|s.accepted| - |s.queue|)] == s.accepted[t]
  }

  predicate Holds(s: State, j: nat, t: nat) {
    j < |s.jobs| && t in s.jobs[j].tickets
  }

  predicate Undecided(phase: Phase) {
    phase.Collecting? || phase.Looping? || phase.Storing? || phase.Waiting?
  }

  ghost predicate InFlight(s: State, t: nat) {
    exists j: nat :: Holds(s, j, t) && Undecided(s.jobs[j].phase)
  }

  ghost predicate Lost(s: State, t: nat) {
    exists j: nat :: Holds(s, j, t) && s.jobs[j].phase.Finished? && !s.jobs[j].phase.outcome.Committed?
  }

  /** Chunk `c` of the database log was written by a job holding the batch. */
  predicate WrittenIn(s: State, t: nat, c: nat) {
    c < |s.log| && Holds(s, s.log[c].job, t)
  }

  ghost predicate Written(s: State, t: nat) {
    exists c: nat :: WrittenIn(s, t, c)
  }

  lemma OneHolder(s: State, j: nat, k: nat, t: nat)
    requires Invariant(s) && Holds(s, j, t) && Holds(s, k, t)
    ensures j == k && t < |s.owner|
  {
    assert JobOk(s, j) && JobOk(s, k);
  }

  lemma OneChunk(s: State, t: nat, c: nat, d: nat)
    requires Invariant(s) && WrittenIn(s, t, c) && WrittenIn(s, t, d)
    ensures c == d && !Undecided(s.jobs[s.log[c].job].phase)
  {
    OneHolder(s, s.log[c].job, s.log[d].job, t);
    assert ChunkOk(s.log, s.jobs, c) && ChunkOk(s.log, s.jobs, d);
  }

  /** The fate of a batch that left the channel is that of the one job holding it. */
  lemma FateOfHolder(s: State, t: nat, j: nat)
    requires Invariant(s) && Holds(s, j, t)
    ensures !Queued(s, t)
    ensures InFlight(s, t) <==> Undecided(s.jobs[j].phase)
    ensures Lost(s, t) <==> s.jobs[j].phase.Finished? && !s.jobs[j].phase.outcome.Committed?
    ensures Written(s, t) <==> ChunkOf(s.jobs[j].phase).Some?
  {
    assert JobOk(s, j);
    OneHolder(s, j, j, t);
    forall k: nat | Holds(s, k, t)
      ensures k == j
    {
      OneHolder(s, j, k, t);
    }
    if ChunkOf(s.jobs[j].phase).Some? {
      assert WrittenIn(s, t, ChunkOf(s.jobs[j].phase).value);
    }
    forall c: nat | WrittenIn(s, t, c)
      ensures ChunkOf(s.jobs[j].phase) == Some(c)
    {
      assert ChunkOk(s.log, s.jobs, c);
    }
  }

  lemma HeldByOwner(s: State, t: nat)
    requires Invariant(s) && t < |s.owner|
    ensures Holds(s, s.owner[t], t)
    ensures Undecided(s.jobs[s.owner[t]].phase) || ChunkOf(s.jobs[s.owner[t]].phase).Some?
         || (s.jobs[s.owner[t]].phase.Finished? && !s.jobs[s.owner[t]].phase.outcome.Committed?)
  {
  }

  /** At every reachable state each accepted batch is in exactly one place: in the
      channel, in flight, written, or lost. */
  lemma Conservation(maxRetries: int, s: State, t: nat)
    requires Reachable(maxRetries, s) && t < |s.accepted|
    ensures Queued(s, t) || InFlight(s, t) || Written(s, t) || Lost(s, t)
    ensures Queued(s, t) ==> !InFlight(s, t) && !Written(s, t) && !Lost(s, t)
    ensures InFlight(s, t) ==> !Written(s, t) && !Lost(s, t)
    ensures Written(s, t) ==> !Lost(s, t)
  {
    ReachableInvariant(maxRetries, s);
    if t < |s.owner| {
      HeldByOwner(s, t);
      hide Invariant, Queued, InFlight, Written, Lost;
      FateOfHolder(s, t, s.owner[t]);
    } else {
      hide Invariant, Holds;
      NoHolder(s, t);
    }
  }

  /** A batch in the channel is held by no job. */
  lemma NoHolder(s: State, t: nat)
    requires Invariant(s) && t >= |s.owner|
    ensures forall j: nat :: !Holds(s, j, t)
  {
    forall j: nat
      ensures !Holds(s, j, t)
    {
      if Holds(s, j, t) {
        OneHolder(s, j, j, t);
      }
    }
  }

  /** A batch is written at most once: one chunk, one position in its job. The
      chunk is the concatenation of the batches its job took, in acceptance order. */
  lemma WrittenOnce(maxRetries: int, s: State, t: nat, c: nat)
    requires Reachable(maxRetries, s) && WrittenIn(s, t, c)
    ensures forall d: nat | WrittenIn(s, t, d) :: d == c
    ensures
      var job := s.jobs[s.log[c].job];
      && s.log[c].records == Concat(job.batches) && |job.batches| == |job.tickets|
      && (forall i :: 0 <= i < |job.tickets| ==>
            job.tickets[i] < |s.accepted| && job.batches[i] == s.accepted[job.tickets[i]])
      && (forall i, k :: 0 <= i < k < |job.tickets| ==> job.tickets[i] < job.tickets[k])
  {
    ReachableInvariant(maxRetries, s);
    forall d: nat | WrittenIn(s, t, d)
      ensures d == c
    {
      OneChunk(s, t, c, d);
    }
    assert ChunkOk(s.log, s.jobs, c) && JobOk(s, s.log[c].job);
  }

  /** A call commits at most one chunk, and reports success on a payload exactly
      when it did. */
  lemma CommitsOnce(maxRetries: int, s: State, j: nat)
    requires Reachable(maxRetries, s) && j < |s.jobs|
    ensures forall c: nat, d: nat | c < |s.log| && d < |s.log| && s.log[c].job == j && s.log[d].job == j :: c == d
    ensures s.jobs[j].phase.Finished? && !s.jobs[j].phase.outcome.NothingToWrite? ==>
              (s.jobs[j].phase.outcome.Committed? <==> exists c: nat :: c < |s.log| && s.log[c].job == j)
  {
    ReachableInvariant(maxRetries, s);
    assert JobOk(s, j);
    forall c | 0 <= c < |s.log| && s.log[c].job == j
      ensures ChunkOf(s.jobs[j].phase) == Some(c)
    {
      assert ChunkOk(s.log, s.jobs, c);
    }
  }

  // ----- order -----

  predicate OnlyWorkerDrains(steps: seq<Step>) {
    forall step | step in steps :: !step.FlushCall?
  }

  predicate FromWorkerAt(s: State, j: nat) {
    j < |s.jobs| && s.jobs[j].kind.FromWorker?
  }

  /** Worker jobs, their tickets and their chunks all advance together. */
  predicate InOrder(s: State) {
    && (forall j :: 0 <= j < |s.jobs| ==>
          !s.jobs[j].kind.FromFlush? && (FromWorkerAt(s, j) ==> |s.jobs[j].tickets| == 1))
    && (forall j, k :: 0 <= j < k < |s.jobs| && FromWorkerAt(s, j) && FromWorkerAt(s, k) ==>
          s.jobs[j].tickets[0] < s.jobs[k].tickets[0])
    && (s.worker.Busy? || s.worker.DrainBusy? ==>
          forall j :: 0 <= j < |s.jobs| && FromWorkerAt(s, j) ==> j <= s.worker.job)
    && (forall c, d :: 0 <= c < d < |s.log| && FromWorkerAt(s, s.log[c].job) && FromWorkerAt(s, s.log[d].job) ==>
          s.log[c].job < s.log[d].job)
  }

  /** Nothing the order depends on changes, except that the worker may go idle. */
  predicate SameOrder(s: State, s': State) {
    && |s'.jobs| == |s.jobs| && |s'.log| == |s.log|
    && (forall j :: 0 <= j < |s.jobs| ==>
          s'.jobs[j].kind == s.jobs[j].kind && s'.jobs[j].tickets == s.jobs[j].tickets)
    && (forall c :: 0 <= c < |s.log| ==> s'.log[c].job == s.log[c].job)
    && (s'.worker.Busy? || s'.worker.DrainBusy? ==> s'.worker == s.worker)
  }

  lemma SameOrderKeeps(s: State, s': State)
    requires InOrder(s) && SameOrder(s, s')
    ensures InOrder(s')
  {
    assert forall j: nat :: FromWorkerAt(s', j) <==> FromWorkerAt(s, j);
    assert forall j: nat :: FromWorkerAt(s, j) ==> s'.jobs[j].tickets == s.jobs[j].tickets;
  }

  lemma QuietStep(s: State, step: Step)
    requires Enabled(s, step)
    requires !step.WorkerTake? && !step.DrainTake? && !step.FlushCall? && !step.BulkCall?
    requires !step.StoreOk? && !step.Collect?
    ensures SameOrder(s, Next(s, step))
  {
    NextJobs(s, step);
    QuietLog(s, step);
    QuietWorker(s, step);
    hide Next, PhaseAfter, Concat;
  }

  lemma QuietWorker(s: State, step: Step)
    requires Enabled(s, step) && !step.WorkerTake? && !step.DrainTake?
    ensures Next(s, step).worker.Busy? || Next(s, step).worker.DrainBusy? ==> Next(s, step).worker == s.worker
  {
    hide Concat, ContextEnded;
  }

  lemma QuietLog(s: State, step: Step)
    requires Enabled(s, step)
    requires !step.WorkerTake? && !step.DrainTake? && !step.FlushCall? && !step.BulkCall?
    requires !step.StoreOk? && !step.Collect?
    ensures
      var s' := Next(s, step);
      |s'.log| == |s.log| && forall c :: 0 <= c < |s.log| ==> s'.log[c].job == s.log[c].job
  {
    hide Concat, ContextEnded;
  }

  lemma KeepOrderTake(s: State, step: Step)
    requires Invariant(s) && Enabled(s, step) && InOrder(s) && (step.WorkerTake? || step.DrainTake?)
    ensures InOrder(Next(s, step))
  {
    hide Concat, ChunkOk, WorkerOk, PhaseOk;
    forall j | 0 <= j < |s.jobs| && FromWorkerAt(s, j)
      ensures s.jobs[j].tickets[0] < |s.owner|
    {
      assert JobOk(s, j);
    }
    forall c | 0 <= c < |s.log|
      ensures s.log[c].job < |s.jobs|
    {
      assert ChunkOk(s.log, s.jobs, c);
      ChunkJobKnown(s, c);
    }
  }

  lemma ChunkJobKnown(s: State, c: nat)
    requires Invariant(s) && c < |s.log|
    ensures s.log[c].job < |s.jobs| && ChunkOf(s.jobs[s.log[c].job].phase) == Some(c)
  {
    assert ChunkOk(s.log, s.jobs, c);
  }

  lemma KeepOrderBulk(s: State, step: Step)
    requires Invariant(s) && Enabled(s, step) && InOrder(s) && step.BulkCall?
    ensures InOrder(Next(s, step))
  {
    hide Concat, ChunkOk, WorkerOk, JobOk;
    forall c | 0 <= c < |s.log|
      ensures s.log[c].job < |s.jobs|
    {
      ChunkJobKnown(s, c);
    }
    var s' := Next(s, step);
    assert forall j: nat :: FromWorkerAt(s', j) <==> FromWorkerAt(s, j);
    assert forall j: nat :: FromWorkerAt(s, j) ==> s'.jobs[j] == s.jobs[j];
  }

  lemma KeepOrderStore(s: State, j: nat)
    requires Invariant(s) && Enabled(s, StoreOk(j)) && InOrder(s)
    ensures InOrder(Next(s, StoreOk(j)))
  {
    hide Concat, ChunkOk, JobOk;
    assert WorkerOk(s, j);
    forall c | 0 <= c < |s.log|
      ensures s.log[c].job < |s.jobs| && s.log[c].job != j
    {
      ChunkJobKnown(s, c);
    }
    var s' := Next(s, StoreOk(j));
    assert forall k: nat :: FromWorkerAt(s', k) <==> FromWorkerAt(s, k);
    assert forall k: nat :: FromWorkerAt(s, k) ==> s'.jobs[k].tickets == s.jobs[k].tickets;
    assert FromWorkerAt(s, j) ==> IsWorkers(s, j);
  }

  lemma CollectIsFlush(s: State, j: nat)
    requires Invariant(s) && Enabled(s, Collect(j))
    ensures s.jobs[j].kind.FromFlush?
  {
    assert JobOk(s, j);
  }

  lemma KeepOrder(s: State, step: Step)
    requires Invariant(s) && Enabled(s, step) && InOrder(s) && !step.FlushCall?
    ensures InOrder(Next(s, step))
  {
    if step.WorkerTake? || step.DrainTake? {
      KeepOrderTake(s, step);
    } else if step.BulkCall? {
      KeepOrderBulk(s, step);
    } else if step.StoreOk? {
      KeepOrderStore(s, step.job);
    } else if step.Collect? {
      CollectIsFlush(s, step.job);
    } else {
      hide Invariant, Enabled, Next, InOrder, SameOrder;
      QuietStep(s, step);
      SameOrderKeeps(s, Next(s, step));
    }
  }

  lemma {:induction false} RunKeepsOrder(maxRetries: int, steps: seq<Step>)
    requires OnlyWorkerDrains(steps)
    ensures Execute(Init(maxRetries), steps).Some? ==> InOrder(Execute(Init(maxRetries), steps).value)
  {
    if steps != [] {
      var front := steps[..|steps| - 1];
      assert forall step | step in front :: step in steps;
      RunKeepsOrder(maxRetries, front);
      RunKeepsInvariant(maxRetries, front);
      hide Invariant, InOrder, Enabled, Next;
      var before := Execute(Init(maxRetries), front);
      if before.Some? && Enabled(before.value, steps[|steps| - 1]) {
        KeepOrder(before.value, steps[|steps| - 1]);
      }
    }
  }

  /** While only the flush worker drains the channel, batches reach the database in
      the order in which they were accepted. */
  lemma WrittenInOrder(maxRetries: int, steps: seq<Step>, t: nat, u: nat, c: nat, d: nat)
    requires OnlyWorkerDrains(steps) && Execute(Init(maxRetries), steps).Some?
    requires
      var s := Execute(Init(maxRetries), steps).value;
      WrittenIn(s, t, c) && WrittenIn(s, u, d)
    ensures c < d <==> t < u
  {
    var s := Execute(Init(maxRetries), steps).value;
    RunKeepsOrder(maxRetries, steps);
    RunKeepsInvariant(maxRetries, steps);
    WorkerChunk(s, t, c);
    WorkerChunk(s, u, d);
    hide Invariant;
  }

  lemma WorkerChunk(s: State, t: nat, c: nat)
    requires Invariant(s) && InOrder(s) && WrittenIn(s, t, c)
    ensures FromWorkerAt(s, s.log[c].job) && s.jobs[s.log[c].job].tickets == [t]
    ensures ChunkOf(s.jobs[s.log[c].job].phase) == Some(c)
  {
    assert JobOk(s, s.log[c].job) && ChunkOk(s.log, s.jobs, c);
  }

  // ----- store calls -----

  /** How often job `j` called the repository. */
  function StoreCalls(steps: seq<Step>, j: nat): nat {
    if steps == [] then 0
    else
      var last := steps[|steps| - 1];
      StoreCalls(steps[..|steps| - 1], j) + if last == StoreOk(j) || last == StoreFail(j) then 1 else 0
  }

  function Limit(maxRetries: int): nat {
    if maxRetries < 0 then 0 else maxRetries
  }

  /** How many calls a job has made where it is now: a cancelled one fewer than allowed,
      a failed one exactly as many as allowed. */
  predicate CallsFit(maxRetries: int, calls: nat, phase: Phase) {
    match phase
    case Collecting => calls == 0
    case Looping(a) => calls == a - 1
    case Storing(a) => calls == a - 1
    case Waiting(a) => calls == a
    case Crediting(_) => 1 <= calls <= Limit(maxRetries)
    case Finished(Committed(_)) => 1 <= calls <= Limit(maxRetries)
    case Finished(NothingToWrite) => calls == 0
    case Finished(ContextError) => calls < Limit(maxRetries)
    case Finished(Exhausted) => calls == Limit(maxRetries)
  }

  predicate JobCallsFit(s: State, j: nat, calls: nat) {
    if j < |s.jobs| then CallsFit(s.maxRetries, calls, s.jobs[j].phase) else calls == 0
  }

  function CallOf(step: Step, j: nat): nat {
    if step == StoreOk(j) || step == StoreFail(j) then 1 else 0
  }

  lemma CallsOfPhase(s: State, step: Step, j: nat, calls: nat)
    requires Enabled(s, step) && j < |s.jobs| && PhaseOk(s.maxRetries, s.log, j, s.jobs[j])
    requires CallsFit(s.maxRetries, calls, s.jobs[j].phase)
    ensures CallsFit(s.maxRetries, calls + CallOf(step, j), PhaseAfter(s, step, j))
  {
    hide Concat, ContextEnded;
  }

  lemma CallsStep(s: State, step: Step, j: nat, calls: nat)
    requires Invariant(s) && Enabled(s, step) && JobCallsFit(s, j, calls)
    ensures JobCallsFit(Next(s, step), j, calls + CallOf(step, j))
    ensures Next(s, step).maxRetries == s.maxRetries
  {
    NewJobStep(s, step);
    if j < |s.jobs| {
      assert JobOk(s, j);
      CallsOfPhase(s, step, j, calls);
      JobStep(s, step, j);
    }
    hide Next, Invariant, PhaseAfter, PhaseOk;
  }

  lemma {:induction false} CallsCounted(maxRetries: int, steps: seq<Step>, j: nat)
    ensures
      match Execute(Init(maxRetries), steps)
      case None => true
      case Some(s) => JobCallsFit(s, j, StoreCalls(steps, j)) && s.maxRetries == maxRetries
  {
    if steps != [] {
      CallsCounted(maxRetries, steps[..|steps| - 1], j);
      RunKeepsInvariant(maxRetries, steps[..|steps| - 1]);
      hide Invariant, Enabled, Next, JobCallsFit;
      var before := Execute(Init(maxRetries), steps[..|steps| - 1]);
      if before.Some? && Enabled(before.value, steps[|steps| - 1]) {
        CallsStep(before.value, steps[|steps| - 1], j, StoreCalls(steps[..|steps| - 1], j));
      }
    }
  }

  /** However the steps interleave, no call makes more than `maxRetries` attempts; one that
      reports a cancellation has made fewer, one that reports failure exactly as many, and
      one that succeeded on a payload at least one. */
  lemma RetriesBounded(maxRetries: int, steps: seq<Step>, s: State, j: nat)
    requires Execute(Init(maxRetries), steps) == Some(s)
    ensures StoreCalls(steps, j) <= Limit(maxRetries)
    ensures j < |s.jobs| && s.jobs[j].phase.Finished? ==>
              match s.jobs[j].phase.outcome
              case Committed(_) => StoreCalls(steps, j) >= 1
              case NothingToWrite => StoreCalls(steps, j) == 0
              case ContextError => StoreCalls(steps, j) < maxRetries
              case Exhausted => StoreCalls(steps, j) == Limit(maxRetries)
  {
    CallsCounted(maxRetries, steps, j);
    RunKeepsInvariant(maxRetries, steps);
    assert j < |s.jobs| ==> JobOk(s, j);
    hide Execute, StoreCalls, TicketsOk, ChunkOk, WorkerOk, CountersOk, OwnerOk;
  }

  // ----- a full channel -----

  function Offers(batches: seq<Batch>): (steps: seq<Step>)
    ensures |steps| == |batches| && forall i :: 0 <= i < |steps| ==> steps[i] == Offer(batches[i])
  {
    seq(|batches|, i requires 0 <= i < |batches| => Offer(batches[i]))
  }

  /** The store with these batches waiting and nothing else. */
  function Holding(maxRetries: int, waiting: seq<Batch>): State {
    Init(maxRetries).(accepted := waiting, queue := waiting, counted := seq(|waiting|, _ => false))
  }

  lemma OfferTo(maxRetries: int, waiting: seq<Batch>, batch: Batch)
    requires batch != []
    ensures Enabled(Holding(maxRetries, waiting), Offer(batch))
    ensures Next(Holding(maxRetries, waiting), Offer(batch))
         == Holding(maxRetries, if |waiting| < 100 then waiting + [batch] else waiting)
  {
    assert seq(|waiting| + 1, _ => false) == seq(|waiting|, _ => false) + [false];
  }

  function FirstHundred(batches: seq<Batch>): seq<Batch> {
    if |batches| <= 100 then batches else batches[..100]
  }

  lemma OneMoreOffer(batches: seq<Batch>, n: nat)
    requires n < |batches|
    ensures Offers(batches[..n + 1]) == Offers(batches[..n]) + [Offer(batches[n])]
    ensures FirstHundred(batches[..n + 1])
         == if |FirstHundred(batches[..n])| < 100 then FirstHundred(batches[..n]) + [batches[n]]
            else FirstHundred(batches[..n])
  {
  }

  /** While nobody takes anything, exactly the first hundred batches are accepted; the
      others are dropped without a trace. */
  lemma FirstHundredAccepted(maxRetries: int, batches: seq<Batch>)
    requires forall i :: 0 <= i < |batches| ==> batches[i] != []
    ensures Execute(Init(maxRetries), Offers(batches)) == Some(Holding(maxRetries, FirstHundred(batches)))
  {
    OffersAccepted(maxRetries, batches, |batches|);
    assert batches[..|batches|] == batches;
  }

  lemma {:induction false} OffersAccepted(maxRetries: int, batches: seq<Batch>, n: nat)
    requires n <= |batches| && forall i :: 0 <= i < |batches| ==> batches[i] != []
    ensures Execute(Init(maxRetries), Offers(batches[..n])) == Some(Holding(maxRetries, FirstHundred(batches[..n])))
  {
    if n == 0 {
      assert Offers(batches[..0]) == [] && Holding(maxRetries, []) == Init(maxRetries);
    } else {
      hide Enabled, Next, Holding, Init, Execute, FirstHundred;
      var before := FirstHundred(batches[..n - 1]);
      OffersAccepted(maxRetries, batches, n - 1);
      OneMoreOffer(batches, n - 1);
      OfferTo(maxRetries, before, batches[n - 1]);
      ExecuteOneMore(Init(maxRetries), Offers(batches[..n - 1]), Holding(maxRetries, before), Offer(batches[n - 1]));
    }
  }
}
