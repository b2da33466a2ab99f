/** Which record of a switch stands last in the database, and exactly when that can
    still change without a new call for the switch. */
module LastWritten {
  import opened Models
  import opened Batches
  import opened WritePath

  predicate Names(batch: Batch, id: string) {
    exists m | m in batch :: m.switchId == id
  }

  predicate JobNames(job: Job, id: string) {
    exists i :: 0 <= i < |job.batches| && Names(job.batches[i], id)
  }

  lemma {:induction false} ConcatNames(batches: seq<Batch>, id: string)
    ensures Names(Concat(batches), id) <==> exists i :: 0 <= i < |batches| && Names(batches[i], id)
  {
    if batches != [] {
      var n := |batches| - 1;
      ConcatNames(batches[..n], id);
      assert Concat(batches) == Concat(batches[..n]) + batches[n];
      if Names(batches[n], id) {
        var m :| m in batches[n] && m.switchId == id;
        assert m in Concat(batches);
      }
      if Names(Concat(batches[..n]), id) {
        var m :| m in Concat(batches[..n]) && m.switchId == id;
        assert m in Concat(batches);
      }
    }
  }

  /** No chunk after `c` holds a record of the switch. */
  predicate NothingBehind(s: State, c: nat, id: string) {
    forall e :: c < e < |s.log| ==> !Names(s.log[e].records, id)
  }

  /** A writer that can still commit. */
  predicate Live(s: State, job: Job) {
    match job.phase
    case Collecting => !ContextEnded(s, job.ctx)
    case Looping(a) => a <= s.maxRetries && !ContextEnded(s, job.ctx)
    case Waiting(_) => !ContextEnded(s, job.ctx)
    case Storing(_) => true
    case _ => false
  }

  /** A record of the switch is in the channel, or with a writer that can still commit. */
  predicate Open(s: State, id: string) {
    || (exists q :: 0 <= q < |s.queue| && Names(s.queue[q], id))
    || (exists j :: 0 <= j < |s.jobs| && Live(s, s.jobs[j]) && JobNames(s.jobs[j], id))
  }

  /** The step is not a new call for the switch. */
  predicate Silent(step: Step, id: string) {
    && (step.Offer? ==> !Names(step.batch, id))
    && (step.BulkCall? ==> !Names(step.records, id))
  }

  // ----- nothing open: nothing comes any more -----

  /** A writer without the switch, or one that cannot commit, stays so. */
  lemma ClosedJob(s: State, step: Step, id: string, j: nat)
    requires Enabled(s, step) && Silent(step, id) && !Open(s, id) && j < |Next(s, step).jobs|
    ensures !(Live(Next(s, step), Next(s, step).jobs[j]) && JobNames(Next(s, step).jobs[j], id))
  {
    NextJobs(s, step);
    if j < |s.jobs| {
      JobStep(s, step, j);
      ClosedOldJob(s, step, id, j);
    } else {
      hide Next, Concat, PhaseAfter, ContextEnded, Names;
    }
  }

  lemma ClosedOldJob(s: State, step: Step, id: string, j: nat)
    requires Enabled(s, step) && !Open(s, id) && j < |s.jobs| <= |Next(s, step).jobs|
    requires Next(s, step).jobs == JobsAfter(s, step) && Next(s, step).maxRetries == s.maxRetries
    requires Next(s, step).jobs[j].phase == PhaseAfter(s, step, j)
    requires ContextEnded(s, s.jobs[j].ctx) ==> ContextEnded(Next(s, step), Next(s, step).jobs[j].ctx)
    ensures !(Live(Next(s, step), Next(s, step).jobs[j]) && JobNames(Next(s, step).jobs[j], id))
  {
    hide Next, Concat, Names;
    if JobNames(s.jobs[j], id) {
      assert !Live(s, s.jobs[j]);
    } else if step == Collect(j) {
      assert !Names(s.queue[0], id);
    }
  }

  lemma ClosedQueue(s: State, step: Step, id: string)
    requires Enabled(s, step) && Silent(step, id) && forall q :: 0 <= q < |s.queue| ==> !Names(s.queue[q], id)
    ensures forall q :: 0 <= q < |Next(s, step).queue| ==> !Names(Next(s, step).queue[q], id)
  {
    hide Concat, ContextEnded, Names;
  }

  lemma ClosedStep(s: State, step: Step, id: string)
    requires Enabled(s, step) && Silent(step, id) && !Open(s, id)
    ensures !Open(Next(s, step), id)
  {
    ClosedQueue(s, step, id);
    hide Next, Enabled, Silent, Names, Live, JobNames;
    var s' := Next(s, step);
    forall j | 0 <= j < |s'.jobs|
      ensures !(Live(s', s'.jobs[j]) && JobNames(s'.jobs[j], id))
    {
      ClosedJob(s, step, id, j);
    }
  }

  /** A step writes at most one chunk, at the end; it holds what its writer holds. */
  lemma LogStep(s: State, step: Step)
    requires Enabled(s, step)
    ensures |s.log| <= |Next(s, step).log|
    ensures forall c :: 0 <= c < |s.log| ==> Next(s, step).log[c].records == s.log[c].records
    ensures |Next(s, step).log| > |s.log| ==>
              step.StoreOk? && |Next(s, step).log| == |s.log| + 1
              && Next(s, step).log[|s.log|].records == Concat(s.jobs[step.job].batches)
  {
    hide Concat, ContextEnded;
  }

  lemma NothingComes(s: State, step: Step, c: nat, id: string)
    requires Enabled(s, step) && !Open(s, id) && NothingBehind(s, c, id)
    ensures NothingBehind(Next(s, step), c, id)
  {
    LogStep(s, step);
    if step.StoreOk? {
      assert Live(s, s.jobs[step.job]);
      ConcatNames(s.jobs[step.job].batches, id);
    }
    hide Next, Concat, Names;
  }

  lemma {:induction false} ClosedRun(s: State, steps: seq<Step>, t: State, c: nat, id: string)
    requires Execute(s, steps) == Some(t) && !Open(s, id) && NothingBehind(s, c, id)
    requires forall i :: 0 <= i < |steps| ==> Silent(steps[i], id)
    ensures !Open(t, id) && NothingBehind(t, c, id)
  {
    hide Enabled, Next, Open, NothingBehind, Silent;
    if steps != [] {
      var n := |steps| - 1;
      var u := Execute(s, steps[..n]).value;
      ClosedRun(s, steps[..n], u, c, id);
      ClosedStep(u, steps[n], id);
      NothingComes(u, steps[n], c, id);
    }
  }

  // ----- something open: it can still be written -----

  /** Steps that belong to no caller but a manual flush. */
  predicate OnlyWriters(steps: seq<Step>) {
    forall i :: 0 <= i < |steps| ==> !steps[i].Offer? && !steps[i].BulkCall?
  }

  /** The log has grown by one chunk, which holds what writer `j` held. */
  predicate Wrote(s: State, t: State, j: nat) {
    j < |s.jobs| && |t.log| == |s.log| + 1 && t.log[|s.log|].records == Concat(s.jobs[j].batches)
  }

  lemma WriteStoring(s: State, j: nat) returns (steps: seq<Step>, t: State)
    requires j < |s.jobs| && s.jobs[j].phase.Storing?
    ensures Execute(s, steps) == Some(t) && OnlyWriters(steps) && Wrote(s, t, j)
  {
    hide Concat;
    t := Next(s, StoreOk(j));
    assert Wrote(s, t, j) && Enabled(s, StoreOk(j));
    hide Next, Enabled;
    ExecuteOneMore(s, [], s, StoreOk(j));
    steps := [] + [StoreOk(j)];
  }

  lemma WriteLooping(s: State, j: nat) returns (steps: seq<Step>, t: State)
    requires j < |s.jobs| && s.jobs[j].phase.Looping? && Live(s, s.jobs[j])
    ensures Execute(s, steps) == Some(t) && OnlyWriters(steps) && Wrote(s, t, j)
  {
    hide Concat, ContextEnded;
    var u := SetPhase(s, j, Storing(s.jobs[j].phase.attempt));
    assert Enabled(s, Check(j)) && Next(s, Check(j)) == u;
    hide Next, Enabled;
    ExecuteOneMore(s, [], s, Check(j));
    var more;
    more, t := WriteStoring(u, j);
    ExecuteThen(s, [] + [Check(j)], u, more);
    steps := [] + [Check(j)] + more;
  }

  lemma WriteWaiting(s: State, j: nat) returns (steps: seq<Step>, t: State)
    requires j < |s.jobs| && s.jobs[j].phase.Waiting? && s.jobs[j].phase.attempt < s.maxRetries && Live(s, s.jobs[j])
    ensures Execute(s, steps) == Some(t) && OnlyWriters(steps) && Wrote(s, t, j)
  {
    hide Concat, Execute;
    var u := SetPhase(s, j, Looping(s.jobs[j].phase.attempt + 1));
    assert Enabled(s, Resume(j)) && Next(s, Resume(j)) == u && Live(u, u.jobs[j]);
    hide Next, Enabled, Live;
    RunOne(s, Resume(j));
    var more;
    more, t := WriteLooping(u, j);
    ExecuteThen(s, [Resume(j)], u, more);
    steps := [Resume(j)] + more;
  }

  lemma WriteCollecting(s: State, j: nat) returns (steps: seq<Step>, t: State)
    requires j < |s.jobs| && s.jobs[j].phase.Collecting? && Live(s, s.jobs[j])
    requires s.maxRetries >= 1 && Concat(s.jobs[j].batches) != []
    ensures Execute(s, steps) == Some(t) && OnlyWriters(steps) && Wrote(s, t, j)
  {
    hide Concat, Execute;
    var u := SetPhase(s, j, Looping(1));
    assert Enabled(s, CollectDone(j)) && Next(s, CollectDone(j)) == u && Live(u, u.jobs[j]);
    hide Next, Enabled, Live;
    RunOne(s, CollectDone(j));
    var more;
    more, t := WriteLooping(u, j);
    ExecuteThen(s, [CollectDone(j)], u, more);
    steps := [CollectDone(j)] + more;
  }

  lemma RunOne(s: State, step: Step)
    requires Enabled(s, step)
    ensures Execute(s, [step]) == Some(Next(s, step))
  {
    hide Enabled, Next;
    assert [step][..0] == [];
  }

  /** A writer that can still commit does, in some run. */
  lemma WriteLive(s: State, j: nat) returns (steps: seq<Step>, t: State)
    requires Invariant(s) && s.maxRetries >= 1 && j < |s.jobs| && Live(s, s.jobs[j]) && Concat(s.jobs[j].batches) != []
    ensures Execute(s, steps) == Some(t) && OnlyWriters(steps) && Wrote(s, t, j)
  {
    assert JobOk(s, j);
    hide Concat, Invariant, TicketsOk, Execute, Wrote;
    match s.jobs[j].phase {
      case Storing(_) => steps, t := WriteStoring(s, j);
      case Looping(_) => steps, t := WriteLooping(s, j);
      case Waiting(_) => steps, t := WriteWaiting(s, j);
      case Collecting => steps, t := WriteCollecting(s, j);
    }
  }

  lemma CollectOnce(s: State, j: nat) returns (u: State)
    requires j < |s.jobs| && s.jobs[j].phase.Collecting? && s.jobs[j].ctx == Own(false) && s.queue != []
    ensures Enabled(s, Collect(j)) && u == Next(s, Collect(j))
    ensures |u.jobs| == |s.jobs| && u.jobs[j].phase.Collecting? && u.jobs[j].ctx == Own(false)
    ensures u.jobs[j].batches == s.jobs[j].batches + [s.queue[0]] && u.queue == s.queue[1..]
    ensures u.log == s.log && u.maxRetries == s.maxRetries
  {
    hide Concat;
    u := Next(s, Collect(j));
  }

  /** A manual flush takes everything out of the channel. */
  lemma {:induction false} CollectAll(s: State, j: nat) returns (steps: seq<Step>, t: State)
    requires j < |s.jobs| && s.jobs[j].phase.Collecting? && s.jobs[j].ctx == Own(false)
    ensures Execute(s, steps) == Some(t) && OnlyWriters(steps)
    ensures |t.jobs| == |s.jobs| && t.jobs[j].phase.Collecting? && t.jobs[j].ctx == Own(false)
    ensures t.jobs[j].batches == s.jobs[j].batches + s.queue && t.log == s.log && t.maxRetries == s.maxRetries
    decreases |s.queue|
  {
    hide Enabled, Next;
    if s.queue == [] {
      return [], s;
    }
    var u := CollectOnce(s, j);
    ExecuteOneMore(s, [], s, Collect(j));
    var more;
    more, t := CollectAll(u, j);
    ExecuteThen(s, [] + [Collect(j)], u, more);
    assert [s.queue[0]] + s.queue[1..] == s.queue;
    steps := [] + [Collect(j)] + more;
  }

  /** So what is in the channel can be written by a manual flush. */
  lemma WriteQueue(s: State) returns (steps: seq<Step>, t: State)
    requires Invariant(s) && s.maxRetries >= 1 && Concat(s.queue) != []
    ensures Execute(s, steps) == Some(t) && OnlyWriters(steps)
    ensures |t.log| == |s.log| + 1 && t.log[|s.log|].records == Concat(s.queue)
  {
    var j := |s.jobs|;
    var u := Next(s, FlushCall);
    assert Enabled(s, FlushCall) && u == s.(jobs := s.jobs + [Job(FromFlush, [], [], Own(false), Collecting)]);
    StepKeepsInvariant(s, FlushCall);
    hide Enabled, Next, Concat, Invariant;
    ExecuteOneMore(s, [], s, FlushCall);
    var collect, v := CollectAll(u, j);
    InvariantThrough(u, collect);
    assert v.jobs[j].batches == s.queue;
    var write;
    write, t := WriteLive(v, j);
    ExecuteThen(s, [] + [FlushCall], u, collect);
    ExecuteThen(s, [] + [FlushCall] + collect, v, write);
    steps := [] + [FlushCall] + collect + write;
  }

  lemma NamesNotEmpty(batch: Batch, id: string)
    requires Names(batch, id)
    ensures batch != []
  {
  }

  lemma OpenCanBeWritten(s: State, id: string) returns (steps: seq<Step>, t: State)
    requires Invariant(s) && s.maxRetries >= 1 && Open(s, id)
    ensures Execute(s, steps) == Some(t) && OnlyWriters(steps)
    ensures |t.log| == |s.log| + 1 && Names(t.log[|s.log|].records, id)
  {
    hide Execute, Names, Concat, Live, Invariant;
    if exists q :: 0 <= q < |s.queue| && Names(s.queue[q], id) {
      ConcatNames(s.queue, id);
      NamesNotEmpty(Concat(s.queue), id);
      steps, t := WriteQueue(s);
    } else {
      var j: nat :| j < |s.jobs| && Live(s, s.jobs[j]) && JobNames(s.jobs[j], id);
      ConcatNames(s.jobs[j].batches, id);
      NamesNotEmpty(Concat(s.jobs[j].batches), id);
      steps, t := WriteLive(s, j);
    }
  }
}
