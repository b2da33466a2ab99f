/** When a queued request is answered, told by the steps of the run alone: between its
    submission and its receipt, from the store as the changes until then have left it. */
module QueueTimes {
  import opened Models
  import opened Cache
  import opened RequestQueue
  import opened QueueLaws

  /** The changes of the store that a run makes, in order. */
  function Events(steps: seq<Step>): seq<Event> {
    if steps == [] then []
    else
      var last := steps[|steps| - 1];
      Events(steps[..|steps| - 1]) + if last.Change? then [last.event] else []
  }

  /** How many requests a run submits with success. */
  function Submissions(steps: seq<Step>): nat {
    if steps == [] then 0
    else
      var last := steps[|steps| - 1];
      Submissions(steps[..|steps| - 1]) + if last.Submit? || last.Handoff? then 1 else 0
  }

  /** Step `i` submits the request that is the `t`-th to be accepted. */
  predicate SubmitsAt(steps: seq<Step>, i: nat, t: nat, request: Request) {
    && i < |steps| && Submissions(steps[..i]) == t
    && (steps[i].Submit? || steps[i].Handoff?) && steps[i].request == request
  }

  /** In step `j` the caller of request `t` receives the reply. */
  predicate ReceivesAt(steps: seq<Step>, j: nat, t: nat) {
    j < |steps| && steps[j] == Await(t, Receive)
  }

  // ----- what the machine remembers of a run -----

  /** The history is the store after each change. */
  lemma {:induction false} HistoryIsReplay(handler: Handler, capacity: nat, workers: nat, steps: seq<Step>, s: State)
    requires Execute(handler, Init(capacity, workers), steps) == Some(s)
    ensures |s.history| == |Events(steps)| + 1 && |s.calls| == Submissions(steps)
    ensures forall k :: 0 <= k <= |Events(steps)| ==> s.history[k] == Replay(Events(steps)[..k])
  {
    hide Execute, Enabled, Next, Apply;
    LastStep(handler, Init(capacity, workers), steps, s);
    if steps != [] {
      var n := |steps| - 1;
      var u := Execute(handler, Init(capacity, workers), steps[..n]).value;
      HistoryIsReplay(handler, capacity, workers, steps[..n], u);
      HistoryStep(handler, u, steps[n]);
      var before, after := Events(steps[..n]), Events(steps);
      assert after == if steps[n].Change? then before + [steps[n].event] else before;
      hide Events;
      forall k | 0 <= k <= |after|
        ensures s.history[k] == Replay(after[..k])
      {
        if k <= |before| {
          assert after[..k] == before[..k] && s.history[k] == u.history[k];
        } else {
          assert after[..k][..|before|] == before[..|before|];
        }
      }
    }
  }

  lemma HistoryStep(handler: Handler, s: State, step: Step)
    requires Enabled(s, step) && s.history != []
    ensures Next(handler, s, step).history
         == s.history + if step.Change? then [Apply(s.history[|s.history| - 1], step.event)] else []
    ensures |Next(handler, s, step).calls| == |s.calls| + if step.Submit? || step.Handoff? then 1 else 0
  {
    hide Apply, AllExited, CanWork, CanAct, AfterMove, AfterAct;
    match step
    case Work(w, move) => MoveKeepsCalls(handler, s, w, move, 0);
    case Await(t, act) => ActOnCalls(s, t, act, 0);
    case _ =>
  }

  lemma MoveKeepsCalls(handler: Handler, s: State, w: nat, move: Move, k: nat)
    requires CanWork(s, w, move)
    ensures
      var s' := AfterMove(handler, s, w, move);
      && s'.history == s.history && |s'.calls| == |s.calls| && s'.cancelled == s.cancelled
      && (k < |s.calls| ==>
            && s'.calls[k].request == s.calls[k].request && s'.calls[k].since == s.calls[k].since
            && s'.calls[k].stage == s.calls[k].stage)
  {
  }

  lemma ActOnCalls(s: State, t: nat, act: Act, k: nat)
    requires CanAct(s, t, act)
    ensures
      var s' := AfterAct(s, t, act);
      && s'.history == s.history && |s'.calls| == |s.calls| && s'.cancelled == s.cancelled
      && (k < |s.calls| ==>
            && s'.calls[k].request == s.calls[k].request && s'.calls[k].since == s.calls[k].since
            && (s'.calls[k].stage.Received? ==>
                  s'.calls[k].stage == s.calls[k].stage
                  || (t == k && act.Receive? && s'.calls[k].stage.until == |s.history|))
            && (s'.calls[k].stage.ShutDown? ==> s.calls[k].stage.ShutDown? || s.cancelled))
  {
  }

  /** Where one request stands, told by the steps. */
  ghost predicate Timed(steps: seq<Step>, t: nat, call: Call) {
    exists i: nat ::
      && SubmitsAt(steps, i, t, call.request) && call.since == |Events(steps[..i])|
      && (call.stage.Received? ==>
            exists j: nat :: i < j && ReceivesAt(steps, j, t) && call.stage.until == |Events(steps[..j])| + 1)
  }

  ghost predicate AllTimed(steps: seq<Step>, s: State) {
    && (forall t: nat | t < |s.calls| :: Timed(steps, t, s.calls[t]))
    && (forall t: nat | t < |s.calls| && s.calls[t].stage.ShutDown? :: s.cancelled)
  }

  /** What a step does to the request and the stage of one call. */
  lemma CallStep(handler: Handler, s: State, step: Step, t: nat)
    requires Enabled(s, step) && s.history != [] && t < |Next(handler, s, step).calls|
    ensures
      var s' := Next(handler, s, step);
      && (s.cancelled ==> s'.cancelled)
      && if t < |s.calls| then
           && s'.calls[t].request == s.calls[t].request && s'.calls[t].since == s.calls[t].since
           && (s'.calls[t].stage.Received? ==>
                 s'.calls[t].stage == s.calls[t].stage
                 || (step == Await(t, Receive) && s'.calls[t].stage.until == |s.history|))
           && (s'.calls[t].stage.ShutDown? ==> s.calls[t].stage.ShutDown? || s.cancelled)
         else
           && (step.Submit? || step.Handoff?) && t == |s.calls|
           && s'.calls[t] == NewCall(s, step.request)
  {
    hide Apply, AllExited, CanWork, CanAct, AfterMove, AfterAct;
    match step
    case Work(w, move) => MoveKeepsCalls(handler, s, w, move, t);
    case Await(k, act) => ActOnCalls(s, k, act, t);
    case _ =>
  }

  lemma TimedStep(steps: seq<Step>, t: nat, before: Call, after: Call, step: Step)
    requires Timed(steps, t, before)
    requires after.request == before.request && after.since == before.since
    requires after.stage.Received? ==>
               after.stage == before.stage || (step == Await(t, Receive) && after.stage.until == |Events(steps)| + 1)
    ensures Timed(steps + [step], t, after)
  {
    hide Submissions, Events;
    var all := steps + [step];
    var i: nat :| SubmitsAt(steps, i, t, before.request) && before.since == |Events(steps[..i])|
                  && (before.stage.Received? ==>
                        exists j: nat ::
                          i < j && ReceivesAt(steps, j, t) && before.stage.until == |Events(steps[..j])| + 1);
    assert all[..i] == steps[..i];
    assert SubmitsAt(all, i, t, after.request);
    if after.stage.Received? {
      if after.stage == before.stage {
        var j: nat :| i < j && ReceivesAt(steps, j, t) && before.stage.until == |Events(steps[..j])| + 1;
        assert all[..j] == steps[..j] && ReceivesAt(all, j, t);
      } else {
        assert all[..|steps|] == steps && ReceivesAt(all, |steps|, t);
      }
    }
  }

  lemma TimedStart(steps: seq<Step>, s: State, step: Step)
    requires (step.Submit? || step.Handoff?) && s.history != []
    requires |s.history| == |Events(steps)| + 1 && |s.calls| == Submissions(steps)
    ensures Timed(steps + [step], |s.calls|, NewCall(s, step.request))
  {
    hide Submissions, Events;
    var all := steps + [step];
    assert all[..|steps|] == steps && all[|steps|] == step;
    assert SubmitsAt(all, |steps|, |s.calls|, step.request);
  }

  lemma {:induction false} RunIsTimed(handler: Handler, capacity: nat, workers: nat, steps: seq<Step>, s: State)
    requires Execute(handler, Init(capacity, workers), steps) == Some(s)
    ensures AllTimed(steps, s)
  {
    hide Execute, Enabled, Next, Timed, Events, Submissions;
    LastStep(handler, Init(capacity, workers), steps, s);
    if steps != [] {
      var n := |steps| - 1;
      var u := Execute(handler, Init(capacity, workers), steps[..n]).value;
      RunIsTimed(handler, capacity, workers, steps[..n], u);
      HistoryIsReplay(handler, capacity, workers, steps[..n], u);
      assert steps == steps[..n] + [steps[n]];
      forall t: nat | t < |s.calls|
        ensures Timed(steps, t, s.calls[t]) && (s.calls[t].stage.ShutDown? ==> s.cancelled)
      {
        CallStep(handler, u, steps[n], t);
        if t < |u.calls| {
          TimedStep(steps[..n], t, u.calls[t], s.calls[t], steps[n]);
        } else {
          TimedStart(steps[..n], u, steps[n]);
        }
      }
    }
  }

  /** In every run, whoever receives an answer to a request submitted in step `i` and
      received in step `j` gets the substitute for a panic, or what the handler answers to
      this very request from the store as some number of changes has left it, at least
      those before step `i` and at most those before step `j`. Only a caller of a queue
      that is being stopped is turned away by the shutdown. */
  lemma AnsweredInTime(handler: Handler, capacity: nat, workers: nat, steps: seq<Step>, s: State, t: nat)
    requires Execute(handler, Init(capacity, workers), steps) == Some(s) && t < |s.calls|
    ensures s.calls[t].stage.ShutDown? ==> s.cancelled
    ensures s.calls[t].stage.Received? ==>
              exists i: nat, j: nat ::
                && i < j && SubmitsAt(steps, i, t, s.calls[t].request) && ReceivesAt(steps, j, t)
                && var reply := s.calls[t].stage.reply;
                   match reply.seen
                   case None => reply.result == Err(InternalServerError)
                   case Some(k) =>
                     && |Events(steps[..i])| <= k <= |Events(steps[..j])| <= |Events(steps)|
                     && reply.result == handler(Replay(Events(steps)[..k]), s.calls[t].request)
  {
    RunIsTimed(handler, capacity, workers, steps, s);
    if s.calls[t].stage.Received? {
      HistoryIsReplay(handler, capacity, workers, steps, s);
      assert Reachable(handler, capacity, workers, s);
      CallersGetTheirOwnAnswer(handler, capacity, workers, s, t);
      hide Execute, Reachable, Replay, Events, Submissions;
      var call := s.calls[t];
      assert Timed(steps, t, call);
      var i: nat :| SubmitsAt(steps, i, t, call.request) && call.since == |Events(steps[..i])|
                    && exists j: nat ::
                         i < j && ReceivesAt(steps, j, t) && call.stage.until == |Events(steps[..j])| + 1;
      var j: nat :| i < j && ReceivesAt(steps, j, t) && call.stage.until == |Events(steps[..j])| + 1;
    }
  }

  // ----- a full buffer, and none -----

  predicate OnlySubmissions(steps: seq<Step>) {
    forall i :: 0 <= i < |steps| ==> steps[i].Submit? || steps[i].Refuse?
  }

  /** While no worker takes anything, exactly the first requests that fit are accepted, and
      every further one is refused. */
  lemma {:induction false} BufferFillsUp(handler: Handler, capacity: nat, workers: nat, steps: seq<Step>, s: State)
    requires Execute(handler, Init(capacity, workers), steps) == Some(s) && OnlySubmissions(steps)
    ensures |s.buffer| == |s.calls| == (if |steps| <= capacity then |steps| else capacity)
    ensures s.refused == |steps| - |s.calls| && !s.closed && s.capacity == capacity
    ensures forall i :: 0 <= i < |steps| ==> (steps[i].Refuse? <==> i >= capacity)
  {
    hide Execute;
    LastStep(handler, Init(capacity, workers), steps, s);
    if steps != [] {
      var n := |steps| - 1;
      BufferFillsUp(handler, capacity, workers, steps[..n],
                    Execute(handler, Init(capacity, workers), steps[..n]).value);
    }
  }

  /** The state of an unbuffered queue whose only caller and only worker stand here. */
  function Alone(stage: Stage, request: Request, slot: Option<Reply>, sent: nat, phase: Phase): State {
    Init(0, 1).(calls := [Call(request, 0, stage, slot, sent)], owner := [0], workers := [phase],
                queued := if stage.Sent? then 0 else 1)
  }

  lemma HandedOver(handler: Handler, request: Request)
    ensures Enabled(Init(0, 1), Handoff(request, 0))
    ensures Next(handler, Init(0, 1), Handoff(request, 0)) == Alone(Sent, request, None, 0, Holding(0))
    ensures Enabled(Alone(Sent, request, None, 0, Holding(0)), Await(0, CountQueued))
    ensures Next(handler, Alone(Sent, request, None, 0, Holding(0)), Await(0, CountQueued))
         == Alone(Waiting, request, None, 0, Holding(0))
  {
    hide Apply;
    var s0 := Init(0, 1);
    assert s0.calls + [NewCall(s0, request)] == [Call(request, 0, Sent, None, 0)];
    assert s0.workers[0 := Holding(0)] == [Holding(0)] && s0.owner + [0] == [0];
  }

  lemma HandledAlone(handler: Handler, request: Request, reply: Reply)
    requires reply == Reply(handler(EMPTY, request), Some(0))
    ensures Enabled(Alone(Waiting, request, None, 0, Holding(0)), Work(0, Handle))
    ensures Next(handler, Alone(Waiting, request, None, 0, Holding(0)), Work(0, Handle))
         == Alone(Waiting, request, None, 0, Answering(0, reply))
    ensures Enabled(Alone(Waiting, request, None, 0, Answering(0, reply)), Work(0, Post))
    ensures Next(handler, Alone(Waiting, request, None, 0, Answering(0, reply)), Work(0, Post))
         == Alone(Waiting, request, Some(reply), 1, Counting)
    ensures Enabled(Alone(Waiting, request, Some(reply), 1, Counting), Await(0, Receive))
    ensures Next(handler, Alone(Waiting, request, Some(reply), 1, Counting), Await(0, Receive))
         == Alone(Received(reply, 1), request, None, 1, Counting)
  {
    hide Apply;
  }

  /** Without a buffer a request still reaches a worker that waits for one. */
  lemma UnbufferedIsServed(handler: Handler, request: Request)
    ensures exists s ::
              && Reachable(handler, 0, 1, s) && |s.calls| == 1 && s.calls[0].request == request
              && s.calls[0].stage == Received(Reply(handler(EMPTY, request), Some(0)), 1)
  {
    var s0, reply := Init(0, 1), Reply(handler(EMPTY, request), Some(0));
    var s5 := Alone(Received(reply, 1), request, None, 1, Counting);
    assert |s5.calls| == 1 && s5.calls[0] == Call(request, 0, Received(reply, 1), None, 1);
    hide Enabled, Next, Init, Execute, Alone;
    HandedOver(handler, request);
    HandledAlone(handler, request, reply);
    var a := [] + [Handoff(request, 0)];
    var b := a + [Await(0, CountQueued)];
    var c := b + [Work(0, Handle)];
    var d := c + [Work(0, Post)];
    ExecuteNothing(handler, s0);
    OneStep(handler, s0, [], s0, Handoff(request, 0));
    OneStep(handler, s0, a, Alone(Sent, request, None, 0, Holding(0)), Await(0, CountQueued));
    OneStep(handler, s0, b, Alone(Waiting, request, None, 0, Holding(0)), Work(0, Handle));
    OneStep(handler, s0, c, Alone(Waiting, request, None, 0, Answering(0, reply)), Work(0, Post));
    OneStep(handler, s0, d, Alone(Waiting, request, Some(reply), 1, Counting), Await(0, Receive));
    assert Reachable(handler, 0, 1, s5);
  }
}
