/** The sequential writer of the hybrid store is one schedule of the concurrent
    write path: whatever happens around a call, some uninterrupted run of the
    machine ends with the same result, log and counters. */
module WriteRefinement {
  import opened Models
  import opened Batches
  import opened WritePath
  import opened WriteCounters
  import opened HybridStore

  function OutcomeResult(outcome: Outcome): WriteResult {
    match outcome
    case Committed(_) => Done
    case NothingToWrite => Done
    case ContextError => ContextCancelled
    case Exhausted => Failed
  }

  /** Call `j` has returned `r`, and only what the call is allowed to change changed. */
  predicate Returned(s: State, t: State, j: nat, r: WriteResult) {
    && j < |s.jobs| && |t.jobs| == |s.jobs|
    && t.jobs[j].phase.Finished? && OutcomeResult(t.jobs[j].phase.outcome) == r
    && t.jobs[j].batches == s.jobs[j].batches
    && (forall k :: 0 <= k < |s.jobs| && k != j ==> t.jobs[k] == s.jobs[k])
    && t.log == s.log + (if r.Done? then [Chunk(j, Concat(s.jobs[j].batches), true)] else [])
    && t.totalDBWrites == s.totalDBWrites + (if r.Done? then |Concat(s.jobs[j].batches)| else 0)
    && t.pendingFlushItems == s.pendingFlushItems - (if r.Done? then |Concat(s.jobs[j].batches)| else 0)
    && t.totalDBWriteErrors == s.totalDBWriteErrors + (if r.Failed? then 1 else 0)
    && t.queue == s.queue && t.accepted == s.accepted && t.owner == s.owner && t.worker == FreedBy(s, j)
  }

  /** The context of job `j` is alive. A job under the drain's context is the drain's. */
  predicate Alive(s: State, j: nat) {
    && j < |s.jobs| && !ContextEnded(s, s.jobs[j].ctx)
    && (s.jobs[j].ctx == Drain ==> s.worker == DrainBusy(j))
  }

  /** Job `j`, whoever called it, is at the head of its loop. */
  predicate AtLoop(s: State, j: nat, attempt: nat) {
    Alive(s, j) && s.jobs[j].phase == Looping(attempt)
  }

  /** The step that ends a context: the caller's, Stop's, or the drain's timeout. */
  function EndStep(ctx: Ctx, j: nat): Step {
    match ctx
    case Root => Cancel
    case Drain => DrainExpire
    case _ => Expire(j)
  }

  function Ended(s: State, j: nat): State
    requires j < |s.jobs|
  {
    match s.jobs[j].ctx
    case Root => s.(cancelled := true)
    case Drain => s.(drainExpired := true)
    case _ => s.(jobs := s.jobs[j := s.jobs[j].(ctx := Own(true))])
  }

  lemma ContextEnds(s: State, j: nat)
    requires Alive(s, j) && s.jobs[j].ctx != Background
    ensures Enabled(s, EndStep(s.jobs[j].ctx, j)) && Next(s, EndStep(s.jobs[j].ctx, j)) == Ended(s, j)
    ensures ContextEnded(Ended(s, j), Ended(s, j).jobs[j].ctx)
  {
  }

  lemma ReturnedAfter(s: State, u: State, t: State, j: nat, r: WriteResult)
    requires Returned(u, t, j, r)
    requires j < |s.jobs| == |u.jobs|
    requires u == s.(jobs := u.jobs, cancelled := u.cancelled, drainExpired := u.drainExpired)
    requires u.jobs[j].batches == s.jobs[j].batches
    requires forall k :: 0 <= k < |s.jobs| && k != j ==> u.jobs[k] == s.jobs[k]
    ensures Returned(s, t, j, r)
  {
    hide Concat;
  }

  lemma GivesUp(s: State, j: nat)
    requires j < |s.jobs| && ContextEnded(s, s.jobs[j].ctx)
    ensures s.jobs[j].phase.Looping? && s.jobs[j].phase.attempt <= s.maxRetries ==>
              Enabled(s, Check(j)) && Returned(s, Next(s, Check(j)), j, ContextCancelled)
    ensures s.jobs[j].phase.Waiting? ==>
              Enabled(s, GiveUp(j)) && Returned(s, Next(s, GiveUp(j)), j, ContextCancelled)
  {
    hide Concat;
  }

  /** The context ends before an attempt or during the backoff. */
  lemma CancelledRun(s: State, j: nat, last: Step) returns (steps: seq<Step>)
    requires Alive(s, j) && s.jobs[j].ctx != Background
    requires (s.jobs[j].phase.Looping? && s.jobs[j].phase.attempt <= s.maxRetries && last == Check(j))
          || (s.jobs[j].phase.Waiting? && last == GiveUp(j))
    ensures Execute(s, steps).Some? && Returned(s, Execute(s, steps).value, j, ContextCancelled)
  {
    hide Concat;
    var first := EndStep(s.jobs[j].ctx, j);
    var u := Ended(s, j);
    ContextEnds(s, j);
    GivesUp(u, j);
    ReturnedAfter(s, u, Next(u, last), j, ContextCancelled);
    hide Next, Enabled, Returned;
    ExecuteOneMore(s, [], s, first);
    ExecuteOneMore(s, [] + [first], u, last);
    steps := [] + [first] + [last];
  }

  /** No attempt is left. */
  lemma NoAttemptLeft(s: State, j: nat, attempt: nat)
    requires AtLoop(s, j, attempt) && attempt > s.maxRetries
    ensures Execute(s, [] + [Check(j)]).Some?
    ensures Returned(s, Execute(s, [] + [Check(j)]).value, j, Failed)
  {
    hide Concat;
    assert Enabled(s, Check(j)) && Returned(s, Next(s, Check(j)), j, Failed);
    hide Next, Enabled, Returned;
    ExecuteOneMore(s, [], s, Check(j));
  }

  /** The repository accepts this attempt. */
  lemma AcceptedAttempt(s: State, j: nat, attempt: nat)
    requires AtLoop(s, j, attempt) && attempt <= s.maxRetries
    ensures Execute(s, [Check(j)] + [StoreOk(j)] + [Credit(j)]).Some?
    ensures Returned(s, Execute(s, [Check(j)] + [StoreOk(j)] + [Credit(j)]).value, j, Done)
  {
    CommitRun(s, j);
    hide Concat, Execute;
  }

  /** The state while job `j` is in `phase`. */
  function At(s: State, j: nat, phase: Phase): State
    requires j < |s.jobs|
  {
    SetPhase(s, j, phase)
  }

  lemma CheckPasses(s: State, j: nat, attempt: nat)
    requires AtLoop(s, j, attempt) && attempt <= s.maxRetries
    ensures Enabled(s, Check(j)) && Next(s, Check(j)) == At(s, j, Storing(attempt))
  {
    hide Concat;
  }

  lemma CallFails(s: State, j: nat, attempt: nat)
    requires j < |s.jobs| && attempt <= s.maxRetries
    ensures
      var u := At(s, j, Storing(attempt));
      && Enabled(u, StoreFail(j))
      && Next(u, StoreFail(j)) == At(s, j, if attempt < s.maxRetries then Waiting(attempt) else Looping(attempt + 1))
  {
    hide Concat;
    var u := At(s, j, Storing(attempt));
    var phase := if attempt < s.maxRetries then Waiting(attempt) else Looping(attempt + 1);
    assert Next(u, StoreFail(j)).jobs == At(s, j, phase).jobs;
  }

  lemma FailedAttempt(s: State, j: nat, attempt: nat)
    requires AtLoop(s, j, attempt) && attempt <= s.maxRetries
    ensures Execute(s, [] + [Check(j)] + [StoreFail(j)])
         == Some(At(s, j, if attempt < s.maxRetries then Waiting(attempt) else Looping(attempt + 1)))
  {
    CheckPasses(s, j, attempt);
    CallFails(s, j, attempt);
    hide Next, Enabled, At;
    ExecuteOneMore(s, [], s, Check(j));
    ExecuteOneMore(s, [] + [Check(j)], At(s, j, Storing(attempt)), StoreFail(j));
  }

  lemma BackoffOver(s: State, j: nat, attempt: nat)
    requires j < |s.jobs| && s.jobs[j].phase == Waiting(attempt)
    ensures Execute(s, [] + [Resume(j)]) == Some(At(s, j, Looping(attempt + 1)))
  {
    assert Enabled(s, Resume(j)) && Next(s, Resume(j)) == At(s, j, Looping(attempt + 1));
    hide Next, Enabled, At;
    ExecuteOneMore(s, [], s, Resume(j));
  }

  lemma Joined(s: State, first: seq<Step>, u: State, second: seq<Step>, j: nat, r: WriteResult)
    requires Execute(s, first) == Some(u) && Execute(u, second).Some? && Returned(u, Execute(u, second).value, j, r)
    requires j < |s.jobs| == |u.jobs| && u == s.(jobs := u.jobs) && u.jobs[j].batches == s.jobs[j].batches
    requires forall k :: 0 <= k < |s.jobs| && k != j ==> u.jobs[k] == s.jobs[k]
    ensures Execute(s, first + second).Some? && Returned(s, Execute(s, first + second).value, j, r)
  {
    ExecuteThen(s, first, u, second);
    ReturnedAfter(s, u, Execute(u, second).value, j, r);
  }

  /** For every pattern of accepted attempts and every moment at which the context
      may end, the machine has a run of the call alone that returns what the
      sequential writer returns, for every kind of caller: a bulk call, a manual flush, the
      flush worker and its drain. Background never ends. */
  lemma {:induction false} SequentialCallIsARun(s: State, j: nat, env: Env, ok: nat -> bool, attempt: nat)
    returns (steps: seq<Step>)
    requires AtLoop(s, j, attempt) && 1 <= attempt && (attempt == 1 || attempt <= s.maxRetries + 1)
    requires s.jobs[j].ctx == Background ==> env.cancelledAt.None?
    requires forall i: nat :: 1 <= i < attempt ==> !ok(i)
    requires attempt > 1 ==> !EndedBy(env, if attempt <= s.maxRetries then 2 * attempt - 2 else 2 * s.maxRetries - 1)
    ensures Execute(s, steps).Some?
    ensures Returned(s, Execute(s, steps).value, j, ResultOf(env, ok, s.maxRetries))
    decreases s.maxRetries + 1 - attempt
  {
    hide Execute, Returned, ResultOf, Concat, At;
    if attempt > s.maxRetries {
      steps := [] + [Check(j)];
      NoAttemptLeft(s, j, attempt);
      NeverCommits(env, ok, s.maxRetries, attempt);
    } else if EndedBy(env, 2 * attempt - 1) {
      steps := CancelledRun(s, j, Check(j));
      NeverCommits(env, ok, s.maxRetries, attempt);
    } else if ok(attempt) {
      steps := [Check(j)] + [StoreOk(j)] + [Credit(j)];
      AcceptedAttempt(s, j, attempt);
      CommitsNow(env, ok, s.maxRetries, attempt);
    } else {
      FailedAttempt(s, j, attempt);
      var first := [] + [Check(j)] + [StoreFail(j)];
      var u := At(s, j, if attempt < s.maxRetries then Waiting(attempt) else Looping(attempt + 1));
      AtJob(s, j, if attempt < s.maxRetries then Waiting(attempt) else Looping(attempt + 1));
      var rest: seq<Step>;
      if attempt == s.maxRetries {
        rest := SequentialCallIsARun(u, j, env, ok, attempt + 1);
      } else if EndedBy(env, 2 * attempt) {
        rest := CancelledRun(u, j, GiveUp(j));
        NeverCommits(env, ok, s.maxRetries, attempt + 1);
      } else {
        BackoffOver(u, j, attempt);
        var v := At(u, j, Looping(attempt + 1));
        AtJob(u, j, Looping(attempt + 1));
        var more := SequentialCallIsARun(v, j, env, ok, attempt + 1);
        rest := [] + [Resume(j)] + more;
        Joined(u, [] + [Resume(j)], v, more, j, ResultOf(env, ok, s.maxRetries));
      }
      Joined(s, first, u, rest, j, ResultOf(env, ok, s.maxRetries));
      steps := first + rest;
    }
  }

  lemma AtJob(s: State, j: nat, phase: Phase)
    requires j < |s.jobs|
    ensures At(s, j, phase) == s.(jobs := At(s, j, phase).jobs) && |At(s, j, phase).jobs| == |s.jobs|
    ensures At(s, j, phase).jobs[j] == s.jobs[j].(phase := phase)
    ensures forall k :: 0 <= k < |s.jobs| && k != j ==> At(s, j, phase).jobs[k] == s.jobs[k]
  {
  }
}
