/** Callers that file records in the cache and only then send them on their way to the
    database, through the channel or with a bulk call of their own, interleaved with each
    other and with the write path: when the cached record of a switch is also the last
    one accepted, and the last one in the database. */
module CacheAndLog {
  import opened Models
  import opened Batches
  import opened Cache
  import opened LastWritten
  import W = WritePath
  import WriteLaws

  datatype Fate =
    | Pending                  // filed in the cache, not yet sent on
    | Accepted(ticket: nat)
    | Dropped
    | Writing(job: nat)        // the bulk writer was started

  /** One call; `direct` calls are bulk calls, the others use the channel. */
  datatype Call = Call(records: Batch, fallback: Time, direct: bool, fate: Fate)

  /** `calls` is in the order of the cache updates; `source` names the call of every
      accepted batch and `writer` that of every bulk job, as history. */
  datatype System =
    System(cache: Entries, calls: seq<Call>, source: seq<nat>, writer: map<nat, nat>, store: W.State)

  function Start(maxRetries: int): System {
    System(EMPTY, [], [], map[], W.Init(maxRetries))
  }

  /** What a call does to the cache: the last record of every switch is filed. */
  function Filing(c: Entries, records: Batch, fallback: Time, now: Time): Entries {
    var last := LastPerSwitch(records);
    Entries(c.data + (map id | id in last && id != "" :: Stored(id, last[id], fallback)),
            c.lastUpdated + (map id | id in last && id != "" :: now))
  }

  /** A call with one record files it as an update does. */
  lemma FilingIsUpdate(c: Entries, record: TelemetryData, fallback: Time, now: Time)
    ensures Filing(c, [record], fallback, now) == Put(c, record.switchId, record, fallback, now)
  {
    assert [record][..0] == [];
    assert LastPerSwitch([record]) == map[record.switchId := record];
    hide LastPerSwitch, Stored;
  }

  /** A call with one clock reading files its records as a batch update does. */
  lemma FilingIsBatch(c: Entries, records: Batch, now: Time)
    ensures Filing(c, records, now, now) == PutBatch(c, LastPerSwitch(records), now)
  {
    hide LastPerSwitch, Stored;
    assert Filing(c, records, now, now).data == PutBatch(c, LastPerSwitch(records), now).data;
  }

  datatype Step =
    | File(records: Batch, fallback: Time, now: Time, direct: bool)  // the cache takes the records
    | Send(call: nat)                                  // the same call's non-blocking send
    | Write(call: nat, ctx: W.Ctx)                     // the same bulk call's writer starts
    | Clean(cutoff: Time)                              // the cache evicts stale entries
    | Store(step: W.Step)                              // any other step of the write path

  predicate Enabled(s: System, step: Step) {
    match step
    case File(records, fallback, now, direct) => records != [] && (direct || |records| > 1 ==> fallback == now)
    case Send(i) => i < |s.calls| && s.calls[i].fate.Pending? && !s.calls[i].direct && s.calls[i].records != []
    case Write(i, ctx) =>
      && i < |s.calls| && s.calls[i].fate.Pending? && s.calls[i].direct
      && W.Enabled(s.store, W.BulkCall(s.calls[i].records, ctx))
    case Clean(_) => true
    case Store(step) => !step.Offer? && !step.BulkCall? && W.Enabled(s.store, step)
  }

  function SetFate(s: System, i: nat, fate: Fate): System
    requires i < |s.calls|
  {
    s.(calls := s.calls[i := s.calls[i].(fate := fate)])
  }

  function AfterSend(s: System, i: nat): System
    requires i < |s.calls| && s.calls[i].records != []
  {
    if |s.store.queue| < CAPACITY then
      SetFate(s, i, Accepted(|s.store.accepted|)).(
        store := W.Next(s.store, W.Offer(s.calls[i].records)), source := s.source + [i])
    else
      SetFate(s, i, Dropped)
  }

  function AfterWrite(s: System, i: nat, ctx: W.Ctx): System
    requires i < |s.calls| && W.Enabled(s.store, W.BulkCall(s.calls[i].records, ctx))
  {
    var job := |s.store.jobs|;
    SetFate(s, i, Writing(job)).(
      store := W.Next(s.store, W.BulkCall(s.calls[i].records, ctx)), writer := s.writer[job := i])
  }

  function Next(s: System, step: Step): System
    requires Enabled(s, step)
  {
    match step
    case File(records, fallback, now, direct) =>
      s.(cache := Filing(s.cache, records, fallback, now),
         calls := s.calls + [Call(records, fallback, direct, Pending)])
    case Send(i) => AfterSend(s, i)
    case Write(i, ctx) => AfterWrite(s, i, ctx)
    case Clean(cutoff) => s.(cache := Evict(s.cache, cutoff))
    case Store(step) => s.(store := W.Next(s.store, step))
  }

  function Execute(s: System, steps: seq<Step>): Option<System> {
    if steps == [] then Some(s)
    else
      match Execute(s, steps[..|steps| - 1])
      case None => None
      case Some(t) => if Enabled(t, steps[|steps| - 1]) then Some(Next(t, steps[|steps| - 1])) else None
  }

  lemma LastStep(s: System, steps: seq<Step>, t: System)
    requires Execute(s, steps) == Some(t)
    ensures steps == [] ==> t == s
    ensures
      steps != [] ==>
        var n := |steps| - 1;
        && Execute(s, steps[..n]).Some?
        && Enabled(Execute(s, steps[..n]).value, steps[n])
        && t == Next(Execute(s, steps[..n]).value, steps[n])
  {
    hide Enabled, Next;
  }

  lemma ExecuteNothing(s: System)
    ensures Execute(s, []) == Some(s)
  {
  }

  lemma OneStep(s: System, steps: seq<Step>, t: System, step: Step)
    requires Execute(s, steps) == Some(t) && Enabled(t, step)
    ensures Execute(s, steps + [step]) == Some(Next(t, step))
  {
    hide Next, Enabled;
    assert (steps + [step])[..|steps|] == steps;
  }

  // ----- what the write path sees -----

  /** The write path's side of a step, if it has one. */
  function Projected(s: System, step: Step): (steps: seq<W.Step>)
    requires Enabled(s, step)
    ensures |steps| <= 1
  {
    match step
    case Send(i) => if |s.store.queue| < CAPACITY then [W.Offer(s.calls[i].records)] else []
    case Write(i, ctx) => [W.BulkCall(s.calls[i].records, ctx)]
    case Store(step) => [step]
    case _ => []
  }

  lemma StepProjects(s: System, step: Step)
    requires Enabled(s, step)
    ensures Projected(s, step) == [] ==> Next(s, step).store == s.store
    ensures
      Projected(s, step) != [] ==>
        W.Enabled(s.store, Projected(s, step)[0]) && Next(s, step).store == W.Next(s.store, Projected(s, step)[0])
    ensures Projected(s, step) != [] && Projected(s, step)[0].FlushCall? ==> step.Store? && step.step.FlushCall?
  {
    hide W.Next, Filing, Evict;
  }

  /** No manual flush. */
  predicate NoFlush(steps: seq<Step>) {
    forall i :: 0 <= i < |steps| && steps[i].Store? ==> !steps[i].step.FlushCall?
  }

  /** What the write path sees of a run is a run of the write path. */
  lemma {:induction false} ProjectedRun(maxRetries: int, steps: seq<Step>, t: System) returns (run: seq<W.Step>)
    requires Execute(Start(maxRetries), steps) == Some(t)
    ensures W.Execute(W.Init(maxRetries), run) == Some(t.store)
    ensures NoFlush(steps) ==> WriteLaws.OnlyWorkerDrains(run)
  {
    hide Enabled, Next, Execute;
    LastStep(Start(maxRetries), steps, t);
    if steps == [] {
      run := [];
      assert W.Execute(W.Init(maxRetries), []) == Some(W.Init(maxRetries));
    } else {
      var n := |steps| - 1;
      var u := Execute(Start(maxRetries), steps[..n]).value;
      var before := ProjectedRun(maxRetries, steps[..n], u);
      StepProjects(u, steps[n]);
      var more := Projected(u, steps[n]);
      run := before + more;
      if more == [] {
        assert run == before;
      } else {
        W.ExecuteOneMore(W.Init(maxRetries), before, u.store, more[0]);
        assert more == [more[0]];
      }
    }
  }

  // ----- what every step keeps -----

  /** Call `i` is the last to have filed a record of the switch. */
  predicate LastCall(s: System, i: nat, id: string) {
    && i < |s.calls| && Names(s.calls[i].records, id)
    && forall k :: i < k < |s.calls| ==> !Names(s.calls[k].records, id)
  }

  /** What call `i` filed for the switch. */
  predicate FiledBy(call: Call, id: string, entry: TelemetryData) {
    id in LastPerSwitch(call.records) && entry == Stored(id, LastPerSwitch(call.records)[id], call.fallback)
  }

  /** A cached record is the one that the last call for its switch filed. */
  ghost predicate CacheOk(s: System) {
    forall id | id in s.cache.data ::
      id != "" && exists i: nat :: LastCall(s, i, id) && FiledBy(s.calls[i], id, s.cache.data[id])
  }

  predicate FatesOk(s: System) {
    && |s.source| == |s.store.accepted|
    && (forall t :: 0 <= t < |s.source| ==> s.source[t] < |s.calls| && s.calls[s.source[t]].fate == Accepted(t))
    && (forall i :: 0 <= i < |s.calls| && s.calls[i].fate.Accepted? ==>
          && !s.calls[i].direct
          && s.calls[i].fate.ticket < |s.source|
          && s.source[s.calls[i].fate.ticket] == i
          && s.store.accepted[s.calls[i].fate.ticket] == s.calls[i].records)
  }

  predicate WritersOk(s: System) {
    && (forall j :: 0 <= j < |s.store.jobs| && s.store.jobs[j].kind.FromBulk? ==>
          j in s.writer && s.writer[j] < |s.calls| && s.calls[s.writer[j]].fate == Writing(j))
    && (forall i :: 0 <= i < |s.calls| && s.calls[i].fate.Writing? ==>
          && s.calls[i].direct
          && s.calls[i].fate.job < |s.store.jobs|
          && s.store.jobs[s.calls[i].fate.job].kind.FromBulk?
          && s.store.jobs[s.calls[i].fate.job].batches == [s.calls[i].records])
  }

  ghost predicate Invariant(s: System) {
    CacheOk(s) && FatesOk(s) && WritersOk(s) && W.Invariant(s.store)
  }

  lemma LastNames(records: Batch, id: string)
    ensures Names(records, id) <==> id in LastPerSwitch(records)
  {
    LastPerSwitchIsLast(records, id);
    hide LastPerSwitch;
  }

  lemma FileKeepsCache(s: System, records: Batch, fallback: Time, now: Time, direct: bool)
    requires CacheOk(s)
    ensures
      CacheOk(s.(cache := Filing(s.cache, records, fallback, now),
                 calls := s.calls + [Call(records, fallback, direct, Pending)]))
  {
    var call := Call(records, fallback, direct, Pending);
    var s' := s.(cache := Filing(s.cache, records, fallback, now), calls := s.calls + [call]);
    forall id | id in s'.cache.data
      ensures id != "" && exists i: nat :: LastCall(s', i, id) && FiledBy(s'.calls[i], id, s'.cache.data[id])
    {
      LastNames(records, id);
      hide Stored, LastPerSwitch, Names;
      if id != "" && id in LastPerSwitch(records) {
        assert LastCall(s', |s.calls|, id) && FiledBy(s'.calls[|s.calls|], id, s'.cache.data[id]);
      } else {
        var i: nat :| LastCall(s, i, id) && FiledBy(s.calls[i], id, s.cache.data[id]);
        assert LastCall(s', i, id);
      }
    }
  }

  /** A send or an eviction: entries go at most, and calls keep what they filed. */
  lemma CacheOkKept(s: System, s': System)
    requires CacheOk(s) && |s'.calls| == |s.calls|
    requires forall i :: 0 <= i < |s.calls| ==>
               s'.calls[i].records == s.calls[i].records && s'.calls[i].fallback == s.calls[i].fallback
    requires forall id | id in s'.cache.data :: id in s.cache.data && s'.cache.data[id] == s.cache.data[id]
    ensures CacheOk(s')
  {
    hide Stored, LastPerSwitch, Names;
    forall id | id in s'.cache.data
      ensures id != "" && exists i: nat :: LastCall(s', i, id) && FiledBy(s'.calls[i], id, s'.cache.data[id])
    {
      var i: nat :| LastCall(s, i, id) && FiledBy(s.calls[i], id, s.cache.data[id]);
      assert LastCall(s', i, id);
    }
  }

  lemma StoreFrame(s: W.State, step: W.Step)
    requires W.Enabled(s, step) && !step.Offer?
    ensures W.Next(s, step).accepted == s.accepted
  {
    hide Concat, W.ContextEnded;
  }

  /** Steps of the write path keep bulk jobs as they are and start none. */
  lemma JobsFrame(s: W.State, step: W.Step, j: nat)
    requires W.Invariant(s) && W.Enabled(s, step) && !step.BulkCall? && j < |W.Next(s, step).jobs|
    ensures j >= |s.jobs| ==> !W.Next(s, step).jobs[j].kind.FromBulk?
    ensures j < |s.jobs| ==> W.Next(s, step).jobs[j].kind == s.jobs[j].kind
    ensures j < |s.jobs| && s.jobs[j].kind.FromBulk? ==> W.Next(s, step).jobs[j].batches == s.jobs[j].batches
  {
    W.NextJobs(s, step);
    if j < |s.jobs| {
      W.JobStepFrame(s, step, j);
      if step == W.Collect(j) {
        assert W.JobOk(s, j);
      }
    }
    hide W.Next, W.PhaseAfter, Concat, W.ContextEnded, W.Invariant;
  }

  lemma JobsGrow(s: W.State, step: W.Step)
    requires W.Enabled(s, step)
    ensures |s.jobs| <= |W.Next(s, step).jobs|
  {
    W.NextJobs(s, step);
    hide W.Next, W.PhaseAfter;
  }

  lemma StoreKeepsWriters(s: System, step: W.Step)
    requires WritersOk(s) && W.Invariant(s.store) && W.Enabled(s.store, step) && !step.BulkCall?
    ensures WritersOk(s.(store := W.Next(s.store, step)))
  {
    var s' := s.(store := W.Next(s.store, step));
    JobsGrow(s.store, step);
    hide W.Next, W.Invariant, W.Enabled;
    forall j | 0 <= j < |s'.store.jobs|
      ensures j >= |s.store.jobs| ==> !s'.store.jobs[j].kind.FromBulk?
      ensures j < |s.store.jobs| ==> s'.store.jobs[j].kind == s.store.jobs[j].kind
      ensures j < |s.store.jobs| && s.store.jobs[j].kind.FromBulk? ==>
                s'.store.jobs[j].batches == s.store.jobs[j].batches
    {
      JobsFrame(s.store, step, j);
    }
  }

  lemma OfferFrame(s: W.State, batch: Batch)
    requires W.Enabled(s, W.Offer(batch))
    ensures
      var s' := W.Next(s, W.Offer(batch));
      && s'.jobs == s.jobs && s'.log == s.log && s'.owner == s.owner
      && s'.accepted == if |s.queue| < CAPACITY then s.accepted + [batch] else s.accepted
  {
  }

  lemma DropKeeps(s: System, i: nat)
    requires Invariant(s) && Enabled(s, Send(i)) && |s.store.queue| >= CAPACITY
    ensures Invariant(AfterSend(s, i))
  {
    hide CacheOk, W.Next, W.Invariant;
    CacheOkKept(s, AfterSend(s, i));
  }

  lemma AcceptFates(s: System, i: nat)
    requires FatesOk(s) && Enabled(s, Send(i)) && |s.store.queue| < CAPACITY
    ensures FatesOk(AfterSend(s, i))
  {
    OfferFrame(s.store, s.calls[i].records);
    hide W.Next, W.Enabled;
  }

  lemma AcceptWriters(s: System, i: nat)
    requires WritersOk(s) && Enabled(s, Send(i)) && |s.store.queue| < CAPACITY
    ensures WritersOk(AfterSend(s, i))
  {
    OfferFrame(s.store, s.calls[i].records);
    hide W.Next, W.Enabled;
  }

  lemma AcceptKeeps(s: System, i: nat)
    requires Invariant(s) && Enabled(s, Send(i)) && |s.store.queue| < CAPACITY
    ensures Invariant(AfterSend(s, i))
  {
    AcceptFates(s, i);
    AcceptWriters(s, i);
    W.StepKeepsInvariant(s.store, W.Offer(s.calls[i].records));
    hide CacheOk, FatesOk, WritersOk, W.Next, W.Invariant, W.Enabled;
    CacheOkKept(s, AfterSend(s, i));
  }

  lemma SendKeeps(s: System, i: nat)
    requires Invariant(s) && Enabled(s, Send(i))
    ensures Invariant(AfterSend(s, i))
  {
    hide Invariant, AfterSend;
    if |s.store.queue| < CAPACITY {
      AcceptKeeps(s, i);
    } else {
      DropKeeps(s, i);
    }
  }

  lemma BulkFrame(s: W.State, records: Batch, ctx: W.Ctx)
    requires W.Enabled(s, W.BulkCall(records, ctx))
    ensures
      var s' := W.Next(s, W.BulkCall(records, ctx));
      && s'.jobs == s.jobs + [W.Job(W.FromBulk, [], [records], ctx, W.Looping(1))]
      && s'.accepted == s.accepted && s'.log == s.log && s'.owner == s.owner
  {
  }

  lemma WriteKeeps(s: System, i: nat, ctx: W.Ctx)
    requires Invariant(s) && Enabled(s, Write(i, ctx))
    ensures Invariant(AfterWrite(s, i, ctx))
  {
    BulkFrame(s.store, s.calls[i].records, ctx);
    W.StepKeepsInvariant(s.store, W.BulkCall(s.calls[i].records, ctx));
    hide CacheOk, W.Next, W.Invariant, W.Enabled;
    CacheOkKept(s, AfterWrite(s, i, ctx));
  }

  lemma StepKeepsInvariant(s: System, step: Step)
    requires Invariant(s) && Enabled(s, step)
    ensures Invariant(Next(s, step))
  {
    hide W.Next, W.Enabled, W.Invariant, CacheOk, AfterSend, AfterWrite, Filing;
    match step
    case File(records, fallback, now, direct) => FileKeepsCache(s, records, fallback, now, direct);
    case Send(i) => SendKeeps(s, i);
    case Write(i, ctx) => WriteKeeps(s, i, ctx);
    case Clean(_) => CacheOkKept(s, Next(s, step));
    case Store(step) =>
      StoreFrame(s.store, step);
      StoreKeepsWriters(s, step);
      W.StepKeepsInvariant(s.store, step);
      CacheOkKept(s, Next(s, Store(step)));
  }

  lemma StartInvariant(maxRetries: int)
    ensures Invariant(Start(maxRetries))
  {
    W.InitInvariant(maxRetries);
    hide W.Invariant;
  }

  lemma {:induction false} RunKeepsInvariant(maxRetries: int, steps: seq<Step>, t: System)
    requires Execute(Start(maxRetries), steps) == Some(t)
    ensures Invariant(t) && t.store.maxRetries == maxRetries
  {
    hide Enabled, Next, Invariant, Execute;
    LastStep(Start(maxRetries), steps, t);
    if steps == [] {
      StartInvariant(maxRetries);
    } else {
      var n := |steps| - 1;
      var u := Execute(Start(maxRetries), steps[..n]).value;
      RunKeepsInvariant(maxRetries, steps[..n], u);
      StepKeepsInvariant(u, steps[n]);
      StepProjects(u, steps[n]);
      if Projected(u, steps[n]) != [] {
        W.NextJobs(u.store, Projected(u, steps[n])[0]);
      }
    }
  }

  /** In every run, whatever calls it is made of, a cached record is the one that the last
      call for its switch filed. */
  lemma CachedIsLastFiled(maxRetries: int, steps: seq<Step>, s: System, i: nat, id: string)
    requires Execute(Start(maxRetries), steps) == Some(s) && LastCall(s, i, id) && id in s.cache.data
    ensures FiledBy(s.calls[i], id, s.cache.data[id])
  {
    RunKeepsInvariant(maxRetries, steps, s);
    hide Execute, LastCall, FiledBy, FatesOk, WritersOk;
    var k: nat :| LastCall(s, k, id) && FiledBy(s.calls[k], id, s.cache.data[id]);
    OneLastCall(s, i, k, id);
  }

  lemma OneLastCall(s: System, i: nat, k: nat, id: string)
    requires LastCall(s, i, id) && LastCall(s, k, id)
    ensures i == k
  {
  }

  // ----- one caller at a time for each switch -----

  /** The call has not been sent on, or its bulk writer is running. */
  predicate Busy(s: System, i: nat)
    requires i < |s.calls|
  {
    match s.calls[i].fate
    case Pending => true
    case Writing(j) => j < |s.store.jobs| && !s.store.jobs[j].phase.Finished?
    case _ => false
  }

  /** A new call names no switch of a call that is under way. */
  ghost predicate Alone(s: System, step: Step) {
    step.File? ==>
      forall i: nat, id | i < |s.calls| && Names(s.calls[i].records, id) && Names(step.records, id) :: !Busy(s, i)
  }

  ghost predicate OneCallerRun(s: System, steps: seq<Step>) {
    steps == []
    || (OneCallerRun(s, steps[..|steps| - 1])
        && match Execute(s, steps[..|steps| - 1])
           case None => true
           case Some(t) => Alone(t, steps[|steps| - 1]))
  }

  /** The chunk in which the records of a call were written. */
  function ChunkOfCall(s: System, i: nat): Option<nat>
    requires i < |s.calls|
  {
    match s.calls[i].fate
    case Writing(j) => if j < |s.store.jobs| then W.ChunkOf(s.store.jobs[j].phase) else None
    case Accepted(t) =>
      if t < |s.store.owner| && s.store.owner[t] < |s.store.jobs|
      then W.ChunkOf(s.store.jobs[s.store.owner[t]].phase)
      else None
    case _ => None
  }

  /** The earlier call is decided; the channel keeps the order of two calls, and a bulk
      call is written before whatever follows it. */
  predicate Ordered(s: System, i: nat, k: nat)
    requires i < |s.calls| && k < |s.calls|
  {
    && !Busy(s, i)
    && (s.calls[i].fate.Accepted? && s.calls[k].fate.Accepted? ==> s.calls[i].fate.ticket < s.calls[k].fate.ticket)
    && (s.calls[i].fate.Writing? && ChunkOfCall(s, i).Some? && ChunkOfCall(s, k).Some? ==>
          ChunkOfCall(s, i).value < ChunkOfCall(s, k).value)
  }

  ghost predicate InOrder(s: System) {
    forall i: nat, k: nat, id |
      i < k < |s.calls| && Names(s.calls[i].records, id) && Names(s.calls[k].records, id) :: Ordered(s, i, k)
  }

  lemma OwnersStep(s: W.State, step: W.Step, t: nat)
    requires W.Enabled(s, step) && t < |W.Next(s, step).owner|
    ensures t < |s.owner| ==> W.Next(s, step).owner[t] == s.owner[t]
    ensures t >= |s.owner| && W.Next(s, step).owner[t] < |W.Next(s, step).jobs| ==>
              W.ChunkOf(W.Next(s, step).jobs[W.Next(s, step).owner[t]].phase).None?
  {
    hide Concat, W.ContextEnded;
  }

  lemma OwnersGrow(s: W.State, step: W.Step)
    requires W.Enabled(s, step)
    ensures |s.owner| <= |W.Next(s, step).owner|
  {
    hide Concat, W.ContextEnded;
  }

  /** A job's chunk appears at the end of the log, and stays. */
  lemma ChunkStep(s: W.State, step: W.Step, j: nat)
    requires W.Enabled(s, step) && j < |s.jobs|
    ensures j < |W.Next(s, step).jobs|
    ensures
      var before, after := W.ChunkOf(s.jobs[j].phase), W.ChunkOf(W.Next(s, step).jobs[j].phase);
      after == before || (before.None? && after == Some(|s.log|))
    ensures s.jobs[j].phase.Finished? ==> W.Next(s, step).jobs[j].phase == s.jobs[j].phase
  {
    W.JobStepPhase(s, step, j);
    hide W.Next, Concat, W.ContextEnded;
  }

  lemma ChunkInLog(s: W.State, j: nat)
    requires W.Invariant(s) && j < |s.jobs|
    ensures W.ChunkOf(s.jobs[j].phase).Some? ==> W.ChunkOf(s.jobs[j].phase).value < |s.log|
  {
    assert W.JobOk(s, j);
    hide W.TicketsOk, W.ChunkOk, W.WorkerOk;
  }

  /** Likewise for the chunk of a call, in steps of the write path itself. */
  lemma CallChunkStep(s: System, step: W.Step, k: nat)
    requires Invariant(s) && W.Enabled(s.store, step) && k < |s.calls|
    ensures
      var s' := s.(store := W.Next(s.store, step));
      && (ChunkOfCall(s', k) == ChunkOfCall(s, k)
          || (ChunkOfCall(s, k).None? && ChunkOfCall(s', k) == Some(|s.store.log|)))
      && (ChunkOfCall(s, k).Some? ==> ChunkOfCall(s, k).value < |s.store.log|)
      && (!Busy(s, k) ==> !Busy(s', k))
      && (!Busy(s, k) && s.calls[k].fate.Writing? ==> ChunkOfCall(s', k) == ChunkOfCall(s, k))
  {
    JobsGrow(s.store, step);
    OwnersGrow(s.store, step);
    assert W.OwnerOk(s.store);
    match s.calls[k].fate {
      case Writing(j) =>
        ChunkStep(s.store, step, j);
        ChunkInLog(s.store, j);
      case Accepted(t) =>
        if t < |W.Next(s.store, step).owner| {
          OwnersStep(s.store, step, t);
        }
        if t < |s.store.owner| && s.store.owner[t] < |s.store.jobs| {
          ChunkStep(s.store, step, s.store.owner[t]);
          ChunkInLog(s.store, s.store.owner[t]);
        }
      case _ =>
    }
    hide W.Next, W.Enabled, W.Invariant, W.ChunkOf, CacheOk;
  }

  lemma StoreKeepsOrdered(s: System, step: W.Step, i: nat, k: nat)
    requires Invariant(s) && W.Enabled(s.store, step) && i < |s.calls| && k < |s.calls| && Ordered(s, i, k)
    ensures Ordered(s.(store := W.Next(s.store, step)), i, k)
  {
    CallChunkStep(s, step, i);
    CallChunkStep(s, step, k);
    hide W.Next, W.Enabled, Invariant, Busy, ChunkOfCall;
  }

  lemma SendKeepsOrdered(s: System, n: nat, i: nat, k: nat)
    requires Invariant(s) && Enabled(s, Send(n)) && i < |s.calls| && k < |s.calls| && Ordered(s, i, k)
    ensures Ordered(AfterSend(s, n), i, k)
  {
    OfferFrame(s.store, s.calls[n].records);
    assert |s.store.owner| <= |s.store.accepted| by { assert W.ChannelOk(s.store); }
    hide W.Next, W.Enabled, W.Invariant, W.ChunkOf, CacheOk, WritersOk;
  }

  lemma WriteKeepsOrdered(s: System, n: nat, ctx: W.Ctx, i: nat, k: nat)
    requires Invariant(s) && Enabled(s, Write(n, ctx)) && i < |s.calls| && k < |s.calls| && Ordered(s, i, k)
    ensures Ordered(AfterWrite(s, n, ctx), i, k)
  {
    BulkFrame(s.store, s.calls[n].records, ctx);
    assert W.OwnerOk(s.store);
    hide W.Next, W.Enabled, W.Invariant, CacheOk, FatesOk;
  }

  lemma StepKeepsOrder(s: System, step: Step)
    requires Invariant(s) && InOrder(s) && Enabled(s, step) && Alone(s, step)
    ensures InOrder(Next(s, step))
  {
    var s' := Next(s, step);
    SameRecords(s, step);
    forall i: nat, k: nat, id | i < k < |s'.calls| && Names(s'.calls[i].records, id) && Names(s'.calls[k].records, id)
      ensures Ordered(s', i, k)
    {
      if k < |s.calls| {
        assert Ordered(s, i, k);
        PairKept(s, step, i, k);
      } else {
        NewPair(s, step, i, id);
      }
    }
  }

  /** Calls keep their records; only filing adds one. */
  lemma SameRecords(s: System, step: Step)
    requires Enabled(s, step)
    ensures |s.calls| <= |Next(s, step).calls| <= |s.calls| + 1 && (|Next(s, step).calls| > |s.calls| ==> step.File?)
    ensures forall i :: 0 <= i < |s.calls| ==> Next(s, step).calls[i].records == s.calls[i].records
  {
    hide W.Next, W.Enabled, Filing;
  }

  lemma PairKept(s: System, step: Step, i: nat, k: nat)
    requires Invariant(s) && Enabled(s, step) && i < |s.calls| && k < |s.calls| && Ordered(s, i, k)
    ensures i < |Next(s, step).calls| && k < |Next(s, step).calls| && Ordered(Next(s, step), i, k)
  {
    hide Invariant, W.Next, AfterSend, AfterWrite, W.Enabled;
    match step
    case File(records, fallback, now, direct) => hide Filing, W.ChunkOf;
    case Send(n) => SendKeepsOrdered(s, n, i, k); SameRecords(s, step);
    case Write(n, ctx) => WriteKeepsOrdered(s, n, ctx, i, k); SameRecords(s, step);
    case Clean(_) => hide Evict, W.ChunkOf;
    case Store(step) => StoreKeepsOrdered(s, step, i, k);
  }

  lemma NewPair(s: System, step: Step, i: nat, id: string)
    requires Enabled(s, step) && Alone(s, step) && step.File? && i < |s.calls|
    requires Names(s.calls[i].records, id) && Names(step.records, id)
    ensures |Next(s, step).calls| == |s.calls| + 1 && Ordered(Next(s, step), i, |s.calls|)
  {
    assert !Busy(s, i);
    hide W.Next, W.Enabled, Filing, W.ChunkOf;
  }

  lemma {:induction false} RunKeepsOrder(maxRetries: int, steps: seq<Step>, t: System)
    requires Execute(Start(maxRetries), steps) == Some(t) && OneCallerRun(Start(maxRetries), steps)
    ensures InOrder(t)
  {
    hide Enabled, Next, Alone, Execute;
    LastStep(Start(maxRetries), steps, t);
    if steps != [] {
      var n := |steps| - 1;
      var u := Execute(Start(maxRetries), steps[..n]).value;
      RunKeepsOrder(maxRetries, steps[..n], u);
      RunKeepsInvariant(maxRetries, steps[..n], u);
      hide InOrder, Invariant;
      StepKeepsOrder(u, steps[n]);
    }
  }

  // ----- the last accepted record -----

  /** Batch `t` is the last accepted one of the switch. */
  predicate LastAccepted(s: System, t: nat, id: string) {
    && t < |s.store.accepted| && Names(s.store.accepted[t], id)
    && forall u :: t < u < |s.store.accepted| ==> !Names(s.store.accepted[u], id)
  }

  /** The call that last filed a record of the switch is also the one whose batch was
      last accepted for it. */
  ghost predicate Agree(s: System, id: string) {
    exists i: nat, t: nat :: LastCall(s, i, id) && LastAccepted(s, t, id) && s.calls[i].fate == Accepted(t)
  }

  /** No batch of the switch was accepted after that of its last call. */
  lemma NoneAcceptedLater(s: System, i: nat, u: nat, id: string)
    requires FatesOk(s) && InOrder(s) && LastCall(s, i, id) && s.calls[i].fate.Accepted?
    requires u < |s.store.accepted| && Names(s.store.accepted[u], id)
    ensures u <= s.calls[i].fate.ticket
  {
    hide Names, Busy, ChunkOfCall;
    var k := s.source[u];
    assert k <= i;
    if k < i {
      assert Ordered(s, k, i);
    }
  }

  lemma LastSentAgrees(s: System, i: nat, id: string)
    requires FatesOk(s) && InOrder(s) && LastCall(s, i, id) && s.calls[i].fate.Accepted?
    ensures Agree(s, id)
  {
    var t := s.calls[i].fate.ticket;
    hide Names, InOrder;
    forall u | t < u < |s.store.accepted|
      ensures !Names(s.store.accepted[u], id)
    {
      if Names(s.store.accepted[u], id) {
        NoneAcceptedLater(s, i, u, id);
      }
    }
    assert LastAccepted(s, t, id);
  }

  /** With one caller at a time for each switch, after any run, the last call for a switch
      is also the one accepted last for it exactly if its send has succeeded: it may be
      due, have found the channel full, or be a bulk call. */
  lemma AgreeIffLastSent(maxRetries: int, steps: seq<Step>, s: System, i: nat, id: string)
    requires OneCallerRun(Start(maxRetries), steps) && Execute(Start(maxRetries), steps) == Some(s)
    requires LastCall(s, i, id)
    ensures Agree(s, id) <==> s.calls[i].fate.Accepted?
    ensures id in s.cache.data ==> FiledBy(s.calls[i], id, s.cache.data[id])
  {
    RunKeepsInvariant(maxRetries, steps, s);
    RunKeepsOrder(maxRetries, steps, s);
    hide OneCallerRun, Execute, FiledBy, LastAccepted, FatesOk, WritersOk, CacheOk, InOrder, LastCall, W.Invariant;
    if s.calls[i].fate.Accepted? {
      LastSentAgrees(s, i, id);
    }
    if Agree(s, id) {
      var k: nat, t: nat :| LastCall(s, k, id) && LastAccepted(s, t, id) && s.calls[k].fate == Accepted(t);
      OneLastCall(s, i, k, id);
    }
    if id in s.cache.data {
      CachedIsLastFiled(maxRetries, steps, s, i, id);
    }
  }
}
