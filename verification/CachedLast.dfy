/** When the cached record of a switch is the last one of the switch in the database, and
    whether it stays so. */
module CachedLast {
  import opened Models
  import opened Batches
  import opened Cache
  import opened LastWritten
  import opened CacheAndLog
  import W = WritePath
  import WriteLaws

  // ----- a last call through the channel -----

  /** Without manual flushes the chunk of a call holds its records and nothing else. */
  lemma ChunkHoldsCall(maxRetries: int, steps: seq<Step>, s: System, i: nat, c: nat)
    requires Execute(Start(maxRetries), steps) == Some(s) && NoFlush(steps)
    requires i < |s.calls| && ChunkOfCall(s, i) == Some(c)
    ensures c < |s.store.log| && s.store.log[c].records == s.calls[i].records
  {
    RunKeepsInvariant(maxRetries, steps, s);
    var run := ProjectedRun(maxRetries, steps, s);
    WriteLaws.RunKeepsOrder(maxRetries, run);
    var j := if s.calls[i].fate.Writing? then s.calls[i].fate.job else s.store.owner[s.calls[i].fate.ticket];
    ChunkInLog(s.store, j);
    assert W.JobOk(s.store, j) && W.WorkerOk(s.store, j) && W.OwnerOk(s.store);
    ChunkOfJob(s.store, j, c);
    hide Execute, W.Execute, CacheOk, W.ChunkOk, W.Invariant;
    ConcatOne(s.calls[i].records);
    if s.calls[i].fate.Accepted? {
      assert s.store.jobs[j].batches == [s.calls[i].records];
    }
  }

  lemma ChunkOfJob(s: W.State, j: nat, c: nat)
    requires W.Invariant(s) && j < |s.jobs| && W.ChunkOf(s.jobs[j].phase) == Some(c)
    ensures c < |s.log| && s.log[c].job == j && s.log[c].records == Concat(s.jobs[j].batches)
  {
    assert W.JobOk(s, j);
    assert W.ChunkOk(s.log, s.jobs, c);
    hide W.TicketsOk, W.WorkerOk, Concat;
  }

  lemma JobOfChunk(s: W.State, e: nat)
    requires W.Invariant(s) && e < |s.log|
    ensures s.log[e].job < |s.jobs| && W.ChunkOf(s.jobs[s.log[e].job].phase) == Some(e)
    ensures s.log[e].records == Concat(s.jobs[s.log[e].job].batches)
  {
    assert W.ChunkOk(s.log, s.jobs, e);
  }

  lemma ConcatOne(batch: Batch)
    ensures Concat([batch]) == batch
  {
    ConcatAppend([], batch);
    assert [] + [batch] == [batch];
  }

  /** A chunk of the flush worker holds one accepted batch. */
  lemma WorkerBatch(s: W.State, j: nat) returns (u: nat)
    requires W.Invariant(s) && j < |s.jobs| && s.jobs[j].kind.FromWorker?
    ensures u < |s.accepted| && u < |s.owner| && s.owner[u] == j && WriteLaws.Holds(s, j, u)
    ensures s.jobs[j].batches == [s.accepted[u]]
  {
    assert W.JobOk(s, j) && W.WorkerOk(s, j);
    u := s.jobs[j].tickets[0];
    hide W.ChunkOk, W.PhaseOk;
  }

  /** Any chunk with a record of the switch stands at or before that of the last call. */
  lemma NoneBehind(maxRetries: int, steps: seq<Step>, s: System, i: nat, id: string, c: nat, e: nat)
    requires OneCallerRun(Start(maxRetries), steps) && Execute(Start(maxRetries), steps) == Some(s) && NoFlush(steps)
    requires LastCall(s, i, id) && s.calls[i].fate.Accepted? && ChunkOfCall(s, i) == Some(c)
    requires e < |s.store.log| && Names(s.store.log[e].records, id)
    ensures e <= c
  {
    RunKeepsInvariant(maxRetries, steps, s);
    RunKeepsOrder(maxRetries, steps, s);
    var run := ProjectedRun(maxRetries, steps, s);
    WriteLaws.RunKeepsOrder(maxRetries, run);
    JobOfChunk(s.store, e);
    hide Execute, W.Execute, OneCallerRun, Names, CacheOk, W.Invariant;
    var j := s.store.log[e].job;
    if s.store.jobs[j].kind.FromBulk? {
      BulkBefore(s, i, id, c, e);
    } else {
      assert s.store.jobs[j].kind.FromWorker?;
      WorkerBefore(maxRetries, run, s, i, id, c, e);
    }
  }

  lemma BulkBefore(s: System, i: nat, id: string, c: nat, e: nat)
    requires Invariant(s) && InOrder(s)
    requires LastCall(s, i, id) && s.calls[i].fate.Accepted? && ChunkOfCall(s, i) == Some(c)
    requires e < |s.store.log| && Names(s.store.log[e].records, id) && s.store.log[e].job < |s.store.jobs|
    requires s.store.jobs[s.store.log[e].job].kind.FromBulk?
    ensures e < c
  {
    hide Names, CacheOk, W.Invariant;
    var j := s.store.log[e].job;
    JobOfChunk(s.store, e);
    var k := s.writer[j];
    ConcatOne(s.calls[k].records);
    assert k < i;
    assert Ordered(s, k, i);
  }

  lemma WorkerBefore(maxRetries: int, run: seq<W.Step>, s: System, i: nat, id: string, c: nat, e: nat)
    requires Invariant(s) && InOrder(s)
    requires W.Execute(W.Init(maxRetries), run) == Some(s.store) && WriteLaws.OnlyWorkerDrains(run)
    requires LastCall(s, i, id) && s.calls[i].fate.Accepted? && ChunkOfCall(s, i) == Some(c)
    requires e < |s.store.log| && Names(s.store.log[e].records, id) && s.store.log[e].job < |s.store.jobs|
    requires s.store.jobs[s.store.log[e].job].kind.FromWorker?
    ensures e <= c
  {
    var t := s.calls[i].fate.ticket;
    var j := s.store.log[e].job;
    var u := WorkerBatch(s.store, j);
    JobOfChunk(s.store, e);
    ConcatOne(s.store.accepted[u]);
    NoneAcceptedLater(s, i, u, id);
    assert W.OwnerOk(s.store);
    ChunkOfJob(s.store, s.store.owner[t], c);
    assert WriteLaws.WrittenIn(s.store, u, e) && WriteLaws.WrittenIn(s.store, t, c);
    hide W.Execute, Names, InOrder, Invariant, WriteLaws.OnlyWorkerDrains;
    WriteLaws.WrittenInOrder(maxRetries, run, t, u, c, e);
  }

  /** With one caller at a time for each switch and no manual flush: if the last call for a
      switch went through the channel and has been written, then its chunk holds exactly
      its records, the cached record is the one it filed, and no record of the switch, from
      whatever call, stands behind it in the database. */
  lemma ChannelLastIsLast(maxRetries: int, steps: seq<Step>, s: System, i: nat, id: string, c: nat)
    requires OneCallerRun(Start(maxRetries), steps) && Execute(Start(maxRetries), steps) == Some(s) && NoFlush(steps)
    requires LastCall(s, i, id) && s.calls[i].fate.Accepted? && ChunkOfCall(s, i) == Some(c)
    ensures c < |s.store.log| && s.store.log[c].records == s.calls[i].records
    ensures id in s.cache.data ==> FiledBy(s.calls[i], id, s.cache.data[id])
    ensures NothingBehind(s.store, c, id)
  {
    assert i < |s.calls|;
    hide Execute, OneCallerRun, NoFlush, ChunkOfCall, LastCall, Names, FiledBy;
    ChunkHoldsCall(maxRetries, steps, s, i, c);
    if id in s.cache.data {
      CachedIsLastFiled(maxRetries, steps, s, i, id);
    }
    forall e | c < e < |s.store.log|
      ensures !Names(s.store.log[e].records, id)
    {
      if Names(s.store.log[e].records, id) {
        NoneBehind(maxRetries, steps, s, i, id, c, e);
      }
    }
  }

  // ----- any last call: whether it stays last -----

  /** No further call files a record of the switch. */
  predicate NoCallFor(steps: seq<Step>, id: string) {
    forall i :: 0 <= i < |steps| && steps[i].File? ==> !Names(steps[i].records, id)
  }

  /** Every call for the switch has been sent on. */
  predicate AllSent(s: System, id: string) {
    forall i :: 0 <= i < |s.calls| && Names(s.calls[i].records, id) ==> !s.calls[i].fate.Pending?
  }

  lemma SentStep(s: System, step: Step, id: string)
    requires Enabled(s, step) && AllSent(s, id) && (step.File? ==> !Names(step.records, id))
    ensures AllSent(Next(s, step), id)
    ensures forall i :: 0 <= i < |Projected(s, step)| ==> Silent(Projected(s, step)[i], id)
  {
    hide W.Next, W.Enabled, Filing, Evict, Names;
  }

  /** The write path sees no new call for the switch. */
  lemma {:induction false} SilentRun(s: System, steps: seq<Step>, t: System, id: string) returns (run: seq<W.Step>)
    requires Execute(s, steps) == Some(t) && NoCallFor(steps, id) && AllSent(s, id)
    ensures AllSent(t, id) && W.Execute(s.store, run) == Some(t.store)
    ensures forall i :: 0 <= i < |run| ==> Silent(run[i], id)
  {
    hide Enabled, Next, Execute, AllSent, Silent, Names;
    LastStep(s, steps, t);
    if steps == [] {
      run := [];
      assert W.Execute(s.store, []) == Some(s.store);
    } else {
      var n := |steps| - 1;
      var u := Execute(s, steps[..n]).value;
      var before := SilentRun(s, steps[..n], u, id);
      StepProjects(u, steps[n]);
      SentStep(u, steps[n], id);
      var more := Projected(u, steps[n]);
      run := before + more;
      if more == [] {
        assert run == before;
      } else {
        W.ExecuteOneMore(s.store, before, u.store, more[0]);
        assert more == [more[0]];
      }
    }
  }

  function Lift(steps: seq<W.Step>): (lifted: seq<Step>)
    ensures |lifted| == |steps| && forall i :: 0 <= i < |steps| ==> lifted[i] == Store(steps[i])
  {
    seq(|steps|, i requires 0 <= i < |steps| => Store(steps[i]))
  }

  /** A run of the writers is a run of the whole system. */
  lemma {:induction false} WritersRun(s: System, steps: seq<W.Step>, store: W.State)
    requires W.Execute(s.store, steps) == Some(store) && OnlyWriters(steps)
    ensures Execute(s, Lift(steps)) == Some(s.(store := store))
  {
    hide W.Enabled, W.Next;
    if steps != [] {
      var n := |steps| - 1;
      var front := steps[..n];
      WritersRun(s, front, W.Execute(s.store, front).value);
      assert Lift(steps)[..n] == Lift(front);
    }
  }

  lemma LastIsSent(s: System, i: nat, id: string)
    requires InOrder(s) && LastCall(s, i, id) && ChunkOfCall(s, i).Some?
    ensures AllSent(s, id)
  {
    hide Names;
    forall k: nat | k < |s.calls| && Names(s.calls[k].records, id)
      ensures !s.calls[k].fate.Pending?
    {
      if k < i {
        assert Ordered(s, k, i);
      }
    }
  }

  /** Some run without a new call for the switch puts a record of it behind chunk `c`. */
  ghost predicate CanBeOvertaken(s: System, c: nat, id: string) {
    exists steps, t :: Execute(s, steps) == Some(t) && NoCallFor(steps, id) && !NothingBehind(t.store, c, id)
  }

  /** With one caller at a time for each switch, once the last call for a switch has been
      written, through the channel or in bulk, in a chunk with no record of the switch
      behind it: without a new call for the switch this stays so, in every run, exactly if
      no record of the switch is in the channel or with a writer that can still commit. */
  lemma StaysLastIff(maxRetries: int, steps: seq<Step>, s: System, i: nat, id: string, c: nat)
    requires maxRetries >= 1 && OneCallerRun(Start(maxRetries), steps) && Execute(Start(maxRetries), steps) == Some(s)
    requires LastCall(s, i, id) && ChunkOfCall(s, i) == Some(c) && NothingBehind(s.store, c, id)
    ensures !CanBeOvertaken(s, c, id) <==> !Open(s.store, id)
  {
    RunKeepsInvariant(maxRetries, steps, s);
    RunKeepsOrder(maxRetries, steps, s);
    LastIsSent(s, i, id);
    ChunkOfCallInLog(s, i);
    hide Execute, OneCallerRun, Open, NothingBehind, InOrder, CacheOk, FatesOk, WritersOk, LastCall, W.Invariant,
      W.Execute;
    if Open(s.store, id) {
      var run, store := OpenCanBeWritten(s.store, id);
      WritersRun(s, run, store);
      Overtaken(s.store, store, c, id);
      assert NoCallFor(Lift(run), id);
    } else {
      forall more, t | Execute(s, more) == Some(t) && NoCallFor(more, id)
        ensures NothingBehind(t.store, c, id)
      {
        var run := SilentRun(s, more, t, id);
        ClosedRun(s.store, run, t.store, c, id);
      }
    }
  }

  lemma ChunkOfCallInLog(s: System, i: nat)
    requires W.Invariant(s.store) && i < |s.calls| && ChunkOfCall(s, i).Some?
    ensures ChunkOfCall(s, i).value < |s.store.log|
  {
    match s.calls[i].fate
    case Writing(j) => ChunkInLog(s.store, j);
    case Accepted(t) => ChunkInLog(s.store, s.store.owner[t]);
  }

  lemma Overtaken(s: W.State, t: W.State, c: nat, id: string)
    requires c < |s.log| < |t.log| && Names(t.log[|s.log|].records, id)
    ensures !NothingBehind(t, c, id)
  {
  }

  // ----- two callers for one switch -----

  /** With two callers for one switch cache and channel can differ for good: the cache ends
      with the second record, the channel with the first. */
  lemma TwoCallersDisagree(maxRetries: int, first: TelemetryData, second: TelemetryData, now: Time)
    requires first.switchId == second.switchId != ""
    ensures
      var steps := [File([first], now, now, false)] + [File([second], now, now, false)] + [Send(1)] + [Send(0)];
      exists s ::
        && Execute(Start(maxRetries), steps) == Some(s)
        && LastCall(s, 1, first.switchId) && s.store.accepted == [[second]] + [[first]] && !Agree(s, first.switchId)
  {
    var id := first.switchId;
    var s2 := FiledTwice(maxRetries, first, second, now);
    var s3, s4 := AfterSend(s2, 1), AfterSend(AfterSend(s2, 1), 0);
    assert s4.store.accepted == [[second]] + [[first]];
    assert s4.calls[1].fate == Accepted(0) && s4.calls[0].fate == Accepted(1);
    assert first in [first] && second in [second];
    assert LastCall(s4, 1, id) && Names(s4.store.accepted[1], id);
    hide Execute, Filing, W.Next, W.Init;
    var filed := [File([first], now, now, false)] + [File([second], now, now, false)];
    OneStep(Start(maxRetries), filed, s2, Send(1));
    OneStep(Start(maxRetries), filed + [Send(1)], s3, Send(0));
    assert !Agree(s4, id) by {
      assert !LastAccepted(s4, 0, id);
      forall k: nat | LastCall(s4, k, id)
        ensures k == 1
      {
        OneLastCall(s4, 1, k, id);
      }
    }
  }

  lemma FiledTwice(maxRetries: int, first: TelemetryData, second: TelemetryData, now: Time) returns (s: System)
    ensures
      Execute(Start(maxRetries), [File([first], now, now, false)] + [File([second], now, now, false)]) == Some(s)
    ensures s.calls == [Call([first], now, false, Pending)] + [Call([second], now, false, Pending)]
    ensures s.store == W.Init(maxRetries) && s.source == []
  {
    hide Execute, Filing, W.Init;
    var s0 := Start(maxRetries);
    ExecuteNothing(s0);
    var s1 := Next(s0, File([first], now, now, false));
    assert s1.calls == [Call([first], now, false, Pending)];
    OneStep(s0, [], s0, File([first], now, now, false));
    assert [] + [File([first], now, now, false)] == [File([first], now, now, false)];
    OneStep(s0, [File([first], now, now, false)], s1, File([second], now, now, false));
    s := Next(s1, File([second], now, now, false));
  }
}
