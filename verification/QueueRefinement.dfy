/** One queued call as the objects make it is one schedule of the machine: the same
    request, ahead of it the same waiting requests, the same changes of the store, the same
    turns of a worker, and the same result. */
module QueueRefinement {
  import opened Models
  import opened Cache
  import opened RequestQueue
  import opened QueueLaws
  import opened QueueStop
  import opened QueuedReads
  import opened QueuedService

  /** The store as it is now. */
  function Current(s: State): Entries
    requires s.history != []
  {
    s.history[|s.history| - 1]
  }

  // ----- the store changes -----

  function ChangeSteps(events: seq<Event>): seq<Step> {
    if events == [] then [] else ChangeSteps(events[..|events| - 1]) + [Change(events[|events| - 1])]
  }

  lemma {:induction false} ChangesRun(handler: Handler, s: State, events: seq<Event>) returns (t: State)
    requires Invariant(handler, s)
    ensures Execute(handler, s, ChangeSteps(events)) == Some(t) && Invariant(handler, t)
    ensures s.history != [] && t.history != [] && t == s.(history := t.history)
    ensures Current(t) == ApplyAll(Current(s), events)
  {
    assert HistoryOk(s);
    hide Execute, Invariant, Apply;
    if events == [] {
      t := s;
      ExecuteNothing(handler, s);
    } else {
      var n := |events| - 1;
      var u := ChangesRun(handler, s, events[..n]);
      t := u.(history := u.history + [Apply(Current(u), events[n])]);
      ChangeStep(handler, u, events[n]);
      StepKeepsInvariant(handler, u, Change(events[n]));
      OneStep(handler, s, ChangeSteps(events[..n]), u, Change(events[n]));
    }
  }

  lemma ChangeStep(handler: Handler, s: State, event: Event)
    requires s.history != []
    ensures Enabled(s, Change(event))
    ensures Next(handler, s, Change(event)) == s.(history := s.history + [Apply(Current(s), event)])
  {
    hide Apply;
  }

  // ----- one turn -----

  /** One request taken, answered and counted by worker `w`. */
  function Turn(w: nat, panics: bool): seq<Step> {
    [] + [Work(w, Take)]
    + [Work(w, if panics then HandlerPanics else Handle)]
    + [Work(w, if panics then PostError else Post)]
    + [Work(w, CountProcessed)]
  }

  function TurnReply(handler: Handler, s: State, request: Request, panics: bool): Reply
    requires s.history != []
  {
    if panics then PANIC_REPLY else Reply(handler(Current(s), request), Some(|s.history| - 1))
  }

  /** The state after a turn: the oldest request is answered, and all else is as before. */
  function AfterTurn(handler: Handler, s: State, w: nat, panics: bool): State
    requires s.history != [] && s.buffer != [] && s.buffer[0] < |s.calls|
  {
    var b := s.buffer[0];
    s.(buffer := s.buffer[1..], owner := s.owner + [w], processed := s.processed + 1,
       calls := s.calls[b := Fill(s.calls[b], TurnReply(handler, s, s.calls[b].request, panics))])
  }

  /** Worker `w` is free. */
  predicate Free(s: State, w: nat) {
    w < |s.workers| && s.workers[w].Idle?
  }

  lemma BufferedSlot(handler: Handler, s: State)
    requires Invariant(handler, s) && s.buffer != []
    ensures s.buffer[0] < |s.calls| && s.calls[s.buffer[0]].slot.None? && s.history != []
  {
    var b := s.buffer[0];
    assert CallOk(handler, s.history, s.calls[b], Pending(s, b));
    hide Genuine, ReceivedOk, WorkerOk, CountersOk, FlagsOk;
  }

  lemma TurnMoves(handler: Handler, s: State, w: nat, panics: bool) returns (s1: State, s2: State, s3: State)
    requires Free(s, w) && s.buffer != [] && s.buffer[0] < |s.calls| && s.history != [] && SlotFree(s, s.buffer[0])
    ensures CanWork(s, w, Take) && s1 == AfterMove(handler, s, w, Take)
    ensures
      var move := if panics then HandlerPanics else Handle;
      CanWork(s1, w, move) && s2 == AfterMove(handler, s1, w, move)
    ensures
      var move := if panics then PostError else Post;
      CanWork(s2, w, move) && s3 == AfterMove(handler, s2, w, move)
    ensures CanWork(s3, w, CountProcessed)
    ensures AfterMove(handler, s3, w, CountProcessed) == AfterTurn(handler, s, w, panics)
  {
    s1 := AfterMove(handler, s, w, Take);
    s2 := AfterMove(handler, s1, w, if panics then HandlerPanics else Handle);
    s3 := AfterMove(handler, s2, w, if panics then PostError else Post);
    var s4 := AfterMove(handler, s3, w, CountProcessed);
    assert s4.workers == s.workers;
    assert s4.calls == AfterTurn(handler, s, w, panics).calls;
  }

  lemma TurnRun(handler: Handler, s: State, w: nat, panics: bool)
    requires Invariant(handler, s) && Free(s, w) && s.buffer != []
    ensures s.buffer[0] < |s.calls| && s.history != []
    ensures Execute(handler, s, Turn(w, panics)) == Some(AfterTurn(handler, s, w, panics))
    ensures Invariant(handler, AfterTurn(handler, s, w, panics))
  {
    BufferedSlot(handler, s);
    var s1, s2, s3 := TurnMoves(handler, s, w, panics);
    ExecuteNothing(handler, s);
    hide Invariant, CanWork, AfterMove, AfterTurn, Execute;
    var first := Work(w, if panics then HandlerPanics else Handle);
    var second := Work(w, if panics then PostError else Post);
    OneStep(handler, s, [], s, Work(w, Take));
    OneStep(handler, s, [] + [Work(w, Take)], s1, first);
    OneStep(handler, s, [] + [Work(w, Take)] + [first], s2, second);
    OneStep(handler, s, [] + [Work(w, Take)] + [first] + [second], s3, Work(w, CountProcessed));
    KeepMove(handler, s, w, Take);
    KeepMove(handler, s1, w, first.move);
    KeepMove(handler, s2, w, second.move);
    KeepMove(handler, s3, w, CountProcessed);
  }

  // ----- all turns of a wait -----

  function Turns(w: nat, n: nat, wait: Wait): seq<Step> {
    if n == 0 then [] else Turns(w, n - 1, wait) + ChangeSteps(wait.changes(n - 1)) + Turn(w, wait.panics(n - 1))
  }

  /** The result sent for a request while the store holds `c`. */
  function TurnResult(handler: Handler, c: Entries, request: Request, panics: bool): Result<Answer> {
    if panics then Err(InternalServerError) else handler(c, request)
  }

  /** The call as it was, with the result of its turn in its slot. */
  predicate AnsweredWith(before: Call, after: Call, result: Result<Answer>) {
    after.stage == before.stage && after.slot.Some? && after.slot.value.result == result
  }

  /** After `n` turns the `n` oldest requests are answered in order, each from the store
      as it was in its turn, and apart from the store nothing else has changed. */
  predicate TurnsDone(handler: Handler, s: State, t: State, n: nat, wait: Wait) {
    && n <= |s.buffer| && s.history != [] && t.history != []
    && t == s.(buffer := s.buffer[n..], owner := t.owner, processed := s.processed + n, calls := t.calls,
               history := t.history)
    && Current(t) == StoreAfter(Current(s), wait.changes, n)
    && |t.calls| == |s.calls|
    && (forall i :: 0 <= i < |s.buffer| ==> s.buffer[i] < |s.calls|)
    && (forall i :: 0 <= i < n ==>
          AnsweredWith(s.calls[s.buffer[i]], t.calls[s.buffer[i]],
                       TurnResult(handler, StoreAfter(Current(s), wait.changes, i + 1), s.calls[s.buffer[i]].request,
                                  wait.panics(i))))
    && (forall i :: n <= i < |s.buffer| ==> t.calls[s.buffer[i]] == s.calls[s.buffer[i]])
  }

  lemma TurnsNone(handler: Handler, s: State, wait: Wait)
    requires Invariant(handler, s)
    ensures TurnsDone(handler, s, s, 0, wait)
  {
    hide CallOk, WorkerOk, CountersOk, FlagsOk;
  }

  /** One more turn, on the store as it has become. */
  lemma TurnsStep(handler: Handler, s: State, u: State, v: State, w: nat, n: nat, wait: Wait)
    requires Invariant(handler, s) && TurnsDone(handler, s, u, n, wait) && n < |s.buffer| && Free(s, w)
    requires v.history != [] && v == u.(history := v.history) && Current(v) == ApplyAll(Current(u), wait.changes(n))
    ensures v.buffer != [] && v.buffer[0] < |v.calls| && Free(v, w)
    ensures TurnsDone(handler, s, AfterTurn(handler, v, w, wait.panics(n)), n + 1, wait)
  {
    assert forall i, k :: 0 <= i < k < |s.buffer| ==> s.buffer[i] != s.buffer[k];
    hide CallOk, WorkerOk, CountersOk, FlagsOk, HistoryOk, Invariant, ApplyAll;
  }

  lemma {:induction false} TurnsRun(handler: Handler, s: State, w: nat, n: nat, wait: Wait) returns (t: State)
    requires Invariant(handler, s) && Free(s, w) && n <= |s.buffer|
    ensures Execute(handler, s, Turns(w, n, wait)) == Some(t)
    ensures TurnsDone(handler, s, t, n, wait) && Invariant(handler, t)
  {
    hide Execute, Invariant, AfterTurn, Turn, TurnsDone, Free;
    if n == 0 {
      t := s;
      ExecuteNothing(handler, s);
      TurnsNone(handler, s, wait);
    } else {
      var u := TurnsRun(handler, s, w, n - 1, wait);
      var v := ChangesRun(handler, u, wait.changes(n - 1));
      TurnsStep(handler, s, u, v, w, n - 1, wait);
      TurnRun(handler, v, w, wait.panics(n - 1));
      t := AfterTurn(handler, v, w, wait.panics(n - 1));
      ExecuteThen(handler, s, Turns(w, n - 1, wait), u, ChangeSteps(wait.changes(n - 1)));
      ExecuteThen(handler, s, Turns(w, n - 1, wait) + ChangeSteps(wait.changes(n - 1)), v, Turn(w, wait.panics(n - 1)));
    }
  }

  // ----- the whole call -----

  /** The request is in the buffer, behind those that were there, and counted. */
  function AfterSend(s: State, request: Request): State
    requires s.history != []
  {
    var call := NewCall(s, request).(stage := Waiting);
    s.(calls := s.calls + [call], buffer := s.buffer + [|s.calls|], queued := s.queued + 1)
  }

  lemma SendRun(handler: Handler, s: State, request: Request)
    requires Invariant(handler, s) && !s.closed && |s.buffer| < s.capacity && s.history != []
    ensures Execute(handler, s, [] + [Submit(request)] + [Await(|s.calls|, CountQueued)]) == Some(AfterSend(s, request))
    ensures Invariant(handler, AfterSend(s, request))
  {
    hide Invariant, Execute, CanWork, AfterMove, Apply, AllExited;
    var s1 := Next(handler, s, Submit(request));
    var last := Await(|s.calls|, CountQueued);
    assert Enabled(s1, last) && Next(handler, s1, last) == AfterSend(s, request) by {
      assert (s.calls + [NewCall(s, request)])[|s.calls| := NewCall(s, request).(stage := Waiting)]
          == AfterSend(s, request).calls;
    }
    StepKeepsInvariant(handler, s, Submit(request));
    StepKeepsInvariant(handler, s1, last);
    ExecuteNothing(handler, s);
    hide Next, Enabled;
    OneStep(handler, s, [], s, Submit(request));
    OneStep(handler, s, [] + [Submit(request)], s1, last);
  }

  /** How the call ends once the worker has made its turns. */
  function LastSteps(ticket: nat, answered: bool, shutDown: bool): seq<Step> {
    if answered then [] + [Await(ticket, Receive)]
    else if shutDown then [] + [Cancel] + [Await(ticket, SeeShutDown)]
    else [] + [Await(ticket, TimeOut)]
  }

  lemma EndRun(handler: Handler, s: State, ticket: nat, shutDown: bool) returns (t: State)
    requires ticket < |s.calls| && s.calls[ticket].stage.Waiting? && !s.cancelled
    ensures Execute(handler, s, LastSteps(ticket, s.calls[ticket].slot.Some?, shutDown)) == Some(t)
    ensures |t.calls| == |s.calls| && t.buffer == s.buffer && t.processed == s.processed && t.history == s.history
    ensures
      t.calls[ticket].stage
      == if s.calls[ticket].slot.Some? then Received(s.calls[ticket].slot.value, |s.history|)
         else if shutDown then ShutDown else TimedOut
  {
    hide CanWork, AfterMove, Apply, AllExited, Execute;
    ExecuteNothing(handler, s);
    if s.calls[ticket].slot.Some? {
      t := Next(handler, s, Await(ticket, Receive));
      OneStep(handler, s, [], s, Await(ticket, Receive));
    } else if shutDown {
      var u := s.(cancelled := true);
      t := Next(handler, u, Await(ticket, SeeShutDown));
      OneStep(handler, s, [], s, Cancel);
      OneStep(handler, s, [] + [Cancel], u, Await(ticket, SeeShutDown));
    } else {
      t := Next(handler, s, Await(ticket, TimeOut));
      OneStep(handler, s, [], s, Await(ticket, TimeOut));
    }
  }

  /** The new request is answered if the worker made more turns than there were
      requests ahead of it, and then with the result of that turn. */
  lemma TurnsAndTheNewCall(handler: Handler, s: State, request: Request, u: State, n: nat, wait: Wait)
    requires s.history != [] && TurnsDone(handler, AfterSend(s, request), u, n, wait)
    ensures |s.calls| < |u.calls| == |s.calls| + 1 && u.calls[|s.calls|].stage.Waiting?
    ensures |u.buffer| == |s.buffer| + 1 - n && u.processed == s.processed + n && u.cancelled == s.cancelled
    ensures u.history != [] && Current(u) == StoreAfter(Current(s), wait.changes, n)
    ensures n > |s.buffer| ==>
              u.calls[|s.calls|].slot.Some?
              && u.calls[|s.calls|].slot.value.result
                 == TurnResult(handler, StoreAfter(Current(s), wait.changes, |s.buffer| + 1), request,
                               wait.panics(|s.buffer|))
    ensures n <= |s.buffer| ==> u.calls[|s.calls|].slot.None?
  {
    var sent, depth := AfterSend(s, request), |s.buffer|;
    assert sent.buffer[depth] == |s.calls| && Current(sent) == Current(s);
    hide StoreAfter;
  }

  /** What the caller gets: the result of its turn, or the end of the wait. */
  predicate EndsAs(stage: Stage, answered: bool, shutDown: bool, result: Result<Answer>) {
    if answered then stage.Received? && stage.reply.result == result
    else stage == if shutDown then ShutDown else TimedOut
  }

  /** Send, turns of the worker, last changes, and the end of the wait, in this order. */
  lemma SendTurnsEnd(handler: Handler, s: State, request: Request, w: nat, n: nat, wait: Wait)
    returns (steps: seq<Step>, t: State)
    requires Invariant(handler, s) && !s.cancelled && !s.closed && Free(s, w) && s.history != []
    requires |s.buffer| < s.capacity && n <= |s.buffer| + 1
    ensures Execute(handler, s, steps) == Some(t)
    ensures |t.calls| == |s.calls| + 1 && |t.buffer| == |s.buffer| + 1 - n && t.processed == s.processed + n
    ensures t.history != [] && Current(t) == StoreAfter(Current(s), wait.changes, n + 1)
    ensures EndsAs(t.calls[|s.calls|].stage, n > |s.buffer|, wait.shutDown,
                   TurnResult(handler, StoreAfter(Current(s), wait.changes, |s.buffer| + 1), request,
                              wait.panics(|s.buffer|)))
  {
    hide Invariant, Execute, Turns, LastSteps, Next, Enabled, TurnsDone, ApplyAll, TurnResult;
    var sent := AfterSend(s, request);
    SendRun(handler, s, request);
    var u := TurnsRun(handler, sent, w, n, wait);
    TurnsAndTheNewCall(handler, s, request, u, n, wait);
    var v := ChangesRun(handler, u, wait.changes(n));
    t := EndRun(handler, v, |s.calls|, wait.shutDown);
    var send := [] + [Submit(request)] + [Await(|s.calls|, CountQueued)];
    var end := LastSteps(|s.calls|, v.calls[|s.calls|].slot.Some?, wait.shutDown);
    steps := send + Turns(w, n, wait) + ChangeSteps(wait.changes(n)) + end;
    ExecuteThen(handler, s, send, sent, Turns(w, n, wait));
    ExecuteThen(handler, s, send + Turns(w, n, wait), u, ChangeSteps(wait.changes(n)));
    ExecuteThen(handler, s, send + Turns(w, n, wait) + ChangeSteps(wait.changes(n)), v, end);
  }

  /** What an object's call returns, a run of the machine returns as well, from any
      state in which a worker is free and Stop has not been called, and it leaves the
      store, the buffer and the counter of processed requests as the call does. */
  lemma QueuedCallIsARun(clock: Time -> string, s: State, request: Request, w: nat, wait: Wait)
    returns (steps: seq<Step>, t: State)
    requires Invariant(Answers(clock), s) && !s.cancelled && !s.closed && Free(s, w)
    ensures s.history != [] && Execute(Answers(clock), s, steps) == Some(t)
    ensures |s.buffer| >= s.capacity ==>
              && t == s.(refused := s.refused + 1)
              && QueueReturns(Current(s), request, |s.buffer|, s.capacity, wait, clock) == Err(QueueFull)
    ensures |s.buffer| < s.capacity ==>
              && |t.calls| == |s.calls| + 1 && Finished(t, |s.calls|)
              && QueueResult(t.calls[|s.calls|].stage)
                 == QueueReturns(Current(s), request, |s.buffer|, s.capacity, wait, clock)
              && |t.buffer| + Served(wait, |s.buffer| + 1) == |s.buffer| + 1
              && t.processed == s.processed + Served(wait, |s.buffer| + 1)
              && t.history != []
              && Current(t) == StoreAfter(Current(s), wait.changes, Served(wait, |s.buffer| + 1) + 1)
  {
    var handler := Answers(clock);
    TurnsNone(handler, s, wait);
    hide Invariant, Execute, Respond, StoreAfter;
    if |s.buffer| >= s.capacity {
      ExecuteNothing(handler, s);
      OneStep(handler, s, [], s, Refuse);
      return [] + [Refuse], s.(refused := s.refused + 1);
    }
    hide Next, Enabled;
    steps, t := SendTurnsEnd(handler, s, request, w, Served(wait, |s.buffer| + 1), wait);
  }
}
