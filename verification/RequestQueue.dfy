/** The request queue as a step machine: callers, a bounded channel, a pool of workers
    and a shutdown, in any interleaving. Every channel operation, counter update and
    read of the store is one step. */
module RequestQueue {
  import opened Models
  import opened Cache

  datatype Request =
    | ReadMetric(id: string, metric: MetricType)
    | ReadSwitch(id: string)
    | ListSwitches

  datatype Answer =
    | MetricValue(value: Value)
    | Record(record: TelemetryData)
    | Listing(records: map<string, TelemetryData>)

  /** How the service answers a request when the cache holds the given entries. */
  type Handler = (Entries, Request) -> Result<Answer>

  /** What is sent back, and the store state it was computed from; a reply made up
      for a handler that panicked was computed from none. */
  datatype Reply = Reply(result: Result<Answer>, seen: Option<nat>)

  const PANIC_REPLY: Reply := Reply(Err(InternalServerError), None)

  /** Where the caller of an accepted request is. */
  datatype Stage = Sent | Waiting | Received(reply: Reply, until: nat) | TimedOut | ShutDown

  /** An accepted request: `slot` is its one-slot reply channel; `since` is the store
      state when it was sent and `sent` the number of replies ever sent, as history. */
  datatype Call = Call(request: Request, since: nat, stage: Stage, slot: Option<Reply>, sent: nat)

  datatype Phase =
    | Idle
    | Holding(ticket: nat)                    // took the request
    | Answering(ticket: nat, reply: Reply)    // the handler returned
    | Recovering(ticket: nat)                 // the handler panicked
    | Counting                                // done, not yet counted
    | Exited

  /** Tickets are positions in `calls`, which is in acceptance order. `history` holds
      the successive states of the store, the current one last; `owner` names the
      worker that took each request; `refused` counts the requests not accepted and
      `lost` the replies not sent because the slot was full. */
  datatype State = State(
    capacity: nat,
    history: seq<Entries>,
    calls: seq<Call>,
    buffer: seq<nat>,
    owner: seq<nat>,
    workers: seq<Phase>,
    cancelled: bool,
    closed: bool,
    stopped: bool,
    refused: nat,
    panics: nat,
    lost: nat,
    queued: nat,
    processed: nat,
    dropped: nat)

  function Init(capacity: nat, workers: nat): State {
    State(capacity, [EMPTY], [], [], [], seq(workers, _ => Idle), false, false, false, 0, 0, 0, 0, 0, 0)
  }

  // ----- steps -----

  /** What a worker does next. */
  datatype Move =
    | Take
    | Handle
    | HandlerPanics
    | Post             // non-blocking send of the reply
    | PostError        // blocking send after a recovered panic
    | CountProcessed
    | ExitClosed
    | ExitCancelled

  /** What the caller of an accepted request does next. */
  datatype Act = CountQueued | Receive | TimeOut | SeeShutDown

  datatype Step =
    | Change(event: Event)                   // the store changes underneath
    | Submit(request: Request)               // sent into the buffer
    | Handoff(request: Request, w: nat)      // sent to a worker that waits
    | Refuse                                 // the channel is full
    | SubmitPanics                           // the channel is closed
    | CountDropped
    | Work(w: nat, move: Move)
    | Await(t: nat, act: Act)
    | Cancel                                 // Stop: cancel, then close, then wait
    | Close
    | StopReturns

  /** The worker's request, with its reply channel still empty. */
  predicate SlotFree(s: State, t: nat) {
    t < |s.calls| && s.calls[t].slot.None?
  }

  predicate CanWork(s: State, w: nat, move: Move) {
    && w < |s.workers|
    && var phase := s.workers[w];
      match move
      case Take => phase.Idle? && s.buffer != []
      case Handle => phase.Holding? && phase.ticket < |s.calls| && s.history != []
      case HandlerPanics => phase.Holding?
      case Post => phase.Answering? && phase.ticket < |s.calls|
      case PostError => phase.Recovering? && SlotFree(s, phase.ticket)
      case CountProcessed => phase.Counting?
      case ExitClosed => phase.Idle? && s.closed && s.buffer == []
      case ExitCancelled => phase.Idle? && s.cancelled
  }

  predicate CanAct(s: State, t: nat, act: Act) {
    && t < |s.calls|
    && var call := s.calls[t];
      match act
      case CountQueued => call.stage.Sent?
      case Receive => call.stage.Waiting? && call.slot.Some?
      case TimeOut => call.stage.Waiting?
      case SeeShutDown => call.stage.Waiting? && s.cancelled
  }

  predicate Enabled(s: State, step: Step) {
    match step
    case Change(_) => s.history != []
    case Submit(_) => !s.closed && |s.buffer| < s.capacity && s.history != []
    case Handoff(_, w) =>
      !s.closed && s.buffer == [] && w < |s.workers| && s.workers[w].Idle? && s.history != []
    case Refuse => !s.closed && |s.buffer| >= s.capacity
    case SubmitPanics => s.closed
    case CountDropped => s.dropped < s.refused
    case Work(w, move) => CanWork(s, w, move)
    case Await(t, act) => CanAct(s, t, act)
    case Cancel => !s.cancelled
    case Close => s.cancelled && !s.closed
    case StopReturns => s.closed && !s.stopped && AllExited(s)
  }

  predicate AllExited(s: State) {
    forall w :: 0 <= w < |s.workers| ==> s.workers[w].Exited?
  }

  function SetPhase(s: State, w: nat, phase: Phase): State
    requires w < |s.workers|
  {
    s.(workers := s.workers[w := phase])
  }

  function SetCall(s: State, t: nat, call: Call): State
    requires t < |s.calls|
  {
    s.(calls := s.calls[t := call])
  }

  /** The reply goes into the slot. */
  function Fill(call: Call, reply: Reply): Call {
    call.(slot := Some(reply), sent := call.sent + 1)
  }

  function NewCall(s: State, request: Request): Call
    requires s.history != []
  {
    Call(request, |s.history| - 1, Sent, None, 0)
  }

  function AfterMove(handler: Handler, s: State, w: nat, move: Move): State
    requires CanWork(s, w, move)
  {
    var phase := s.workers[w];
    match move
    case Take => SetPhase(s, w, Holding(s.buffer[0])).(buffer := s.buffer[1..], owner := s.owner + [w])
    case Handle =>
      var now := |s.history| - 1;
      SetPhase(s, w, Answering(phase.ticket, Reply(handler(s.history[now], s.calls[phase.ticket].request), Some(now))))
    case HandlerPanics => SetPhase(s, w, Recovering(phase.ticket))
    case Post =>
      if SlotFree(s, phase.ticket)
      then SetPhase(SetCall(s, phase.ticket, Fill(s.calls[phase.ticket], phase.reply)), w, Counting)
      else SetPhase(s, w, Counting).(lost := s.lost + 1)
    case PostError => SetPhase(SetCall(s, phase.ticket, Fill(s.calls[phase.ticket], PANIC_REPLY)), w, Counting)
    case CountProcessed => SetPhase(s, w, Idle).(processed := s.processed + 1)
    case ExitClosed => SetPhase(s, w, Exited)
    case ExitCancelled => SetPhase(s, w, Exited)
  }

  function AfterAct(s: State, t: nat, act: Act): State
    requires CanAct(s, t, act)
  {
    var call := s.calls[t];
    match act
    case CountQueued => SetCall(s, t, call.(stage := Waiting)).(queued := s.queued + 1)
    case Receive => SetCall(s, t, call.(stage := Received(call.slot.value, |s.history|), slot := None))
    case TimeOut => SetCall(s, t, call.(stage := TimedOut))
    case SeeShutDown => SetCall(s, t, call.(stage := ShutDown))
  }

  function Next(handler: Handler, s: State, step: Step): State
    requires Enabled(s, step)
  {
    match step
    case Change(event) => s.(history := s.history + [Apply(s.history[|s.history| - 1], event)])
    case Submit(request) => s.(calls := s.calls + [NewCall(s, request)], buffer := s.buffer + [|s.calls|])
    case Handoff(request, w) =>
      SetPhase(s, w, Holding(|s.calls|)).(calls := s.calls + [NewCall(s, request)], owner := s.owner + [w])
    case Refuse => s.(refused := s.refused + 1)
    case SubmitPanics => s.(panics := s.panics + 1)
    case CountDropped => s.(dropped := s.dropped + 1)
    case Work(w, move) => AfterMove(handler, s, w, move)
    case Await(t, act) => AfterAct(s, t, act)
    case Cancel => s.(cancelled := true)
    case Close => s.(closed := true)
    case StopReturns => s.(stopped := true)
  }

  function Execute(handler: Handler, s: State, steps: seq<Step>): Option<State> {
    if steps == [] then Some(s)
    else
      match Execute(handler, s, steps[..|steps| - 1])
      case None => None
      case Some(t) =>
        if Enabled(t, steps[|steps| - 1]) then Some(Next(handler, t, steps[|steps| - 1])) else None
  }

  ghost predicate Reachable(handler: Handler, capacity: nat, workers: nat, s: State) {
    exists steps :: Execute(handler, Init(capacity, workers), steps) == Some(s)
  }

  // ----- what every step keeps -----

  /** The worker works for the request. */
  predicate Serves(phase: Phase, t: nat) {
    match phase
    case Holding(k) => k == t
    case Answering(k, _) => k == t
    case Recovering(k) => k == t
    case _ => false
  }

  /** The reply is the handler's answer to this very request, in some state of the
      store no older than the request, or the substitute for a panic. */
  predicate Genuine(handler: Handler, history: seq<Entries>, call: Call, reply: Reply) {
    match reply.seen
    case None => reply == PANIC_REPLY
    case Some(k) => call.since <= k < |history| && reply.result == handler(history[k], call.request)
  }

  predicate ReceivedOk(handler: Handler, history: seq<Entries>, call: Call) {
    call.stage.Received? ==>
      && call.stage.until <= |history|
      && Genuine(handler, history[..call.stage.until], call, call.stage.reply)
  }

  predicate ChannelOk(s: State) {
    && |s.buffer| <= s.capacity
    && |s.owner| + |s.buffer| == |s.calls|
    && (forall i :: 0 <= i < |s.buffer| ==> s.buffer[i] == |s.owner| + i)
    && (forall t :: 0 <= t < |s.owner| ==> s.owner[t] < |s.workers|)
  }

  /** The request is in the buffer, or the worker that took it still serves it. */
  predicate Pending(s: State, t: nat)
    requires ChannelOk(s) && t < |s.calls|
  {
    t >= |s.owner| || Serves(s.workers[s.owner[t]], t)
  }

  /** No reply is sent while the request is pending, and exactly one afterwards; it
      is in the slot until the caller receives it. */
  predicate CallOk(handler: Handler, history: seq<Entries>, call: Call, pending: bool) {
    && call.sent == (if pending then 0 else 1)
    && (call.slot.Some? || call.stage.Received? <==> call.sent == 1)
    && !(call.slot.Some? && call.stage.Received?)
    && call.since < |history|
    && (call.slot.Some? ==> Genuine(handler, history, call, call.slot.value))
    && ReceivedOk(handler, history, call)
  }

  predicate WorkerOk(handler: Handler, s: State, w: nat)
    requires ChannelOk(s) && w < |s.workers|
  {
    match s.workers[w]
    case Holding(t) => t < |s.owner| && s.owner[t] == w
    case Answering(t, reply) => t < |s.owner| && s.owner[t] == w && Genuine(handler, s.history, s.calls[t], reply)
    case Recovering(t) => t < |s.owner| && s.owner[t] == w
    case _ => true
  }

  /** Workers that have taken a request and not yet counted it. */
  function Busy(workers: seq<Phase>): nat {
    if workers == [] then 0
    else
      var last := workers[|workers| - 1];
      Busy(workers[..|workers| - 1]) + if last.Idle? || last.Exited? then 0 else 1
  }

  /** Accepted requests not yet counted as queued. */
  function Uncounted(calls: seq<Call>): nat {
    if calls == [] then 0
    else Uncounted(calls[..|calls| - 1]) + if calls[|calls| - 1].stage.Sent? then 1 else 0
  }

  predicate CountersOk(s: State) {
    && s.processed + Busy(s.workers) == |s.owner|
    && s.queued + Uncounted(s.calls) == |s.calls|
    && s.dropped <= s.refused
  }

  predicate FlagsOk(s: State) {
    && (s.closed ==> s.cancelled)
    && (s.stopped ==> s.closed && AllExited(s))
    && s.lost == 0
  }

  predicate HistoryOk(s: State) {
    s.history != [] && forall k :: 0 <= k < |s.history| ==> Consistent(s.history[k])
  }

  predicate Invariant(handler: Handler, s: State) {
    && ChannelOk(s)
    && (forall t: nat | t < |s.calls| :: CallOk(handler, s.history, s.calls[t], Pending(s, t)))
    && (forall w: nat | w < |s.workers| :: WorkerOk(handler, s, w))
    && CountersOk(s) && FlagsOk(s) && HistoryOk(s)
  }

  lemma {:induction false} NoneBusy(n: nat)
    ensures Busy(seq(n, _ => Idle)) == 0
  {
    if n > 0 {
      var idle: seq<Phase> := seq(n, _ => Idle);
      assert idle[..n - 1] == seq(n - 1, _ => Idle);
      NoneBusy(n - 1);
    }
  }

  lemma InitInvariant(handler: Handler, capacity: nat, workers: nat)
    ensures Invariant(handler, Init(capacity, workers))
  {
    NoneBusy(workers);
  }

  lemma {:induction false} BusyUpdate(workers: seq<Phase>, w: nat, phase: Phase)
    requires w < |workers|
    ensures Busy(workers[w := phase])
         == Busy(workers) + (if phase.Idle? || phase.Exited? then 0 else 1)
          - (if workers[w].Idle? || workers[w].Exited? then 0 else 1)
  {
    var n := |workers| - 1;
    if w == n {
      assert workers[w := phase][..n] == workers[..n];
    } else {
      BusyUpdate(workers[..n], w, phase);
      assert workers[w := phase][..n] == workers[..n][w := phase];
    }
  }

  lemma {:induction false} UncountedUpdate(calls: seq<Call>, t: nat, call: Call)
    requires t < |calls|
    ensures Uncounted(calls[t := call])
         == Uncounted(calls) + (if call.stage.Sent? then 1 else 0) - (if calls[t].stage.Sent? then 1 else 0)
  {
    var n := |calls| - 1;
    if t == n {
      assert calls[t := call][..n] == calls[..n];
    } else {
      UncountedUpdate(calls[..n], t, call);
      assert calls[t := call][..n] == calls[..n][t := call];
    }
  }

  lemma UncountedAppend(calls: seq<Call>, call: Call)
    ensures Uncounted(calls + [call]) == Uncounted(calls) + if call.stage.Sent? then 1 else 0
  {
    assert (calls + [call])[..|calls|] == calls;
  }

  /** The store states a reply was computed from stay where they are. */
  lemma GenuineKept(handler: Handler, history: seq<Entries>, more: seq<Entries>, call: Call, reply: Reply)
    requires Genuine(handler, history, call, reply)
    requires |history| <= |more| && more[..|history|] == history
    ensures Genuine(handler, more, call, reply)
  {
  }

  // ----- a worker moves -----

  lemma MoveChannel(handler: Handler, s: State, w: nat, move: Move)
    requires ChannelOk(s) && CanWork(s, w, move)
    ensures ChannelOk(AfterMove(handler, s, w, move))
  {
  }

  /** The move ends the service of request `t`. */
  predicate Settles(s: State, w: nat, move: Move, t: nat)
    requires CanWork(s, w, move)
  {
    (move.Post? || move.PostError?) && s.workers[w].ticket == t
  }

  /** A request is pending until its reply is sent; no other move ends its service,
      and only a pending request is settled. */
  lemma MovePending(handler: Handler, s: State, w: nat, move: Move, t: nat)
    requires ChannelOk(s) && CanWork(s, w, move) && t < |s.calls| && WorkerOk(handler, s, w)
    requires ChannelOk(AfterMove(handler, s, w, move)) && |AfterMove(handler, s, w, move).calls| == |s.calls|
    ensures Pending(AfterMove(handler, s, w, move), t) == (Pending(s, t) && !Settles(s, w, move, t))
    ensures Settles(s, w, move, t) ==> Pending(s, t)
  {
    hide Genuine;
  }

  lemma MoveCall(handler: Handler, s: State, w: nat, move: Move, t: nat)
    requires Invariant(handler, s) && CanWork(s, w, move) && t < |s.calls|
    ensures
      var s' := AfterMove(handler, s, w, move);
      && ChannelOk(s') && |s'.calls| == |s.calls|
      && CallOk(handler, s'.history, s'.calls[t], Pending(s', t))
  {
    MoveChannel(handler, s, w, move);
    MovePending(handler, s, w, move, t);
    assert WorkerOk(handler, s, w) && CallOk(handler, s.history, s.calls[t], Pending(s, t));
    hide Pending, ChannelOk, CountersOk, FlagsOk, HistoryOk, Invariant;
  }

  lemma MoveWorker(handler: Handler, s: State, w: nat, move: Move, k: nat)
    requires Invariant(handler, s) && CanWork(s, w, move) && k < |s.workers|
    ensures ChannelOk(AfterMove(handler, s, w, move)) && k < |AfterMove(handler, s, w, move).workers|
    ensures WorkerOk(handler, AfterMove(handler, s, w, move), k)
  {
    MoveChannel(handler, s, w, move);
    assert WorkerOk(handler, s, w) && WorkerOk(handler, s, k);
    if s.workers[w].Holding? {
      assert CallOk(handler, s.history, s.calls[s.workers[w].ticket], Pending(s, s.workers[w].ticket));
    }
    hide Pending, CallOk, CountersOk, FlagsOk, HistoryOk, Invariant;
  }

  /** Nothing is lost: a reply is always sent into an empty slot. */
  lemma PostIntoFreeSlot(handler: Handler, s: State, w: nat)
    requires Invariant(handler, s) && w < |s.workers| && (s.workers[w].Answering? || s.workers[w].Recovering?)
    ensures SlotFree(s, s.workers[w].ticket)
  {
    assert WorkerOk(handler, s, w);
    var t := s.workers[w].ticket;
    assert CallOk(handler, s.history, s.calls[t], Pending(s, t));
    hide CountersOk, FlagsOk, HistoryOk, Genuine, ReceivedOk;
  }

  lemma MoveCounts(handler: Handler, s: State, w: nat, move: Move)
    requires Invariant(handler, s) && CanWork(s, w, move)
    ensures
      var s' := AfterMove(handler, s, w, move);
      CountersOk(s') && FlagsOk(s') && HistoryOk(s')
  {
    var s' := AfterMove(handler, s, w, move);
    if move.Post? {
      PostIntoFreeSlot(handler, s, w);
    }
    BusyUpdate(s.workers, w, s'.workers[w]);
    if move.Post? || move.PostError? {
      var t := s.workers[w].ticket;
      UncountedUpdate(s.calls, t, s'.calls[t]);
    }
    hide CallOk, WorkerOk, ChannelOk, HistoryOk, Busy, Uncounted, Invariant;
  }

  lemma KeepMove(handler: Handler, s: State, w: nat, move: Move)
    requires Invariant(handler, s) && CanWork(s, w, move)
    ensures Invariant(handler, AfterMove(handler, s, w, move))
  {
    var s' := AfterMove(handler, s, w, move);
    MoveChannel(handler, s, w, move);
    MoveCounts(handler, s, w, move);
    assert |s'.calls| == |s.calls| && |s'.workers| == |s.workers|;
    hide AfterMove, CanWork, ChannelOk, CallOk, WorkerOk, CountersOk, FlagsOk, HistoryOk, Pending;
    forall t: nat | t < |s'.calls|
      ensures CallOk(handler, s'.history, s'.calls[t], Pending(s', t))
    {
      MoveCall(handler, s, w, move, t);
    }
    forall k: nat | k < |s'.workers|
      ensures WorkerOk(handler, s', k)
    {
      MoveWorker(handler, s, w, move, k);
    }
  }

  // ----- a caller acts -----

  lemma ActCall(handler: Handler, s: State, t: nat, act: Act)
    requires Invariant(handler, s) && CanAct(s, t, act)
    ensures
      var s' := AfterAct(s, t, act);
      && |s'.calls| == |s.calls| && ChannelOk(s') && Pending(s', t) == Pending(s, t)
      && CallOk(handler, s'.history, s'.calls[t], Pending(s', t))
      && s'.calls[t].request == s.calls[t].request && s'.calls[t].since == s.calls[t].since
  {
    assert CallOk(handler, s.history, s.calls[t], Pending(s, t));
    assert s.history[..|s.history|] == s.history;
    hide CountersOk, FlagsOk, HistoryOk, WorkerOk, Genuine, Serves, Invariant;
  }

  lemma ActCounts(handler: Handler, s: State, t: nat, act: Act)
    requires Invariant(handler, s) && CanAct(s, t, act)
    ensures
      var s' := AfterAct(s, t, act);
      CountersOk(s') && FlagsOk(s') && HistoryOk(s')
  {
    UncountedUpdate(s.calls, t, AfterAct(s, t, act).calls[t]);
    hide CallOk, WorkerOk, ChannelOk, HistoryOk, Busy, Uncounted, Invariant;
  }

  /** Callers do not change what the workers do, nor each other's requests. */
  lemma ActFrame(handler: Handler, s: State, t: nat, act: Act)
    requires CanAct(s, t, act)
    ensures
      var s' := AfterAct(s, t, act);
      && s'.history == s.history && s'.workers == s.workers && s'.owner == s.owner && s'.buffer == s.buffer
      && |s'.calls| == |s.calls| && forall k :: 0 <= k < |s.calls| && k != t ==> s'.calls[k] == s.calls[k]
  {
  }

  lemma KeepAct(handler: Handler, s: State, t: nat, act: Act)
    requires Invariant(handler, s) && CanAct(s, t, act)
    ensures Invariant(handler, AfterAct(s, t, act))
  {
    var s' := AfterAct(s, t, act);
    ActCall(handler, s, t, act);
    ActCounts(handler, s, t, act);
    ActFrame(handler, s, t, act);
    hide AfterAct, CanAct, CallOk, CountersOk, FlagsOk, HistoryOk, Genuine, ChannelOk;
    forall k: nat | k < |s'.calls| && k != t
      ensures CallOk(handler, s'.history, s'.calls[k], Pending(s', k))
    {
      assert CallOk(handler, s.history, s.calls[k], Pending(s, k));
    }
    forall w: nat | w < |s'.workers|
      ensures WorkerOk(handler, s', w)
    {
      assert WorkerOk(handler, s, w);
      WorkerUnderAct(handler, s, s', w, t);
    }
  }

  lemma WorkerUnderAct(handler: Handler, s: State, s': State, w: nat, t: nat)
    requires ChannelOk(s) && ChannelOk(s') && w < |s.workers| && WorkerOk(handler, s, w) && t < |s.calls|
    requires s'.history == s.history && s'.workers == s.workers && s'.owner == s.owner && |s'.calls| == |s.calls|
    requires forall k :: 0 <= k < |s.calls| && k != t ==> s'.calls[k] == s.calls[k]
    requires s'.calls[t].request == s.calls[t].request && s'.calls[t].since == s.calls[t].since
    ensures WorkerOk(handler, s', w)
  {
  }

  // ----- a request is accepted -----

  /** A free worker takes the new call at once. */
  predicate Handed(s: State, s': State, request: Request, w: nat)
    requires s.history != []
  {
    && w < |s.workers| && s.workers[w].Idle?
    && s' == s.(calls := s.calls + [NewCall(s, request)], owner := s.owner + [w],
                workers := s.workers[w := Holding(|s.calls|)])
  }

  /** One more call, in the buffer or with a worker that was free. */
  predicate Grows(s: State, s': State, request: Request) {
    && s.history != [] && !s.closed
    && (if |s.owner| == |s'.owner|
        then |s.buffer| < s.capacity
             && s' == s.(calls := s.calls + [NewCall(s, request)], buffer := s.buffer + [|s.calls|])
        else s.buffer == [] && |s.owner| < |s'.owner| && Handed(s, s', request, s'.owner[|s.owner|]))
  }

  lemma GrowthCalls(handler: Handler, s: State, s': State, request: Request, t: nat)
    requires Invariant(handler, s) && Grows(s, s', request) && t < |s'.calls|
    ensures ChannelOk(s') && CallOk(handler, s'.history, s'.calls[t], Pending(s', t))
  {
    if t < |s.calls| {
      assert CallOk(handler, s.history, s.calls[t], Pending(s, t));
    }
    hide CountersOk, FlagsOk, HistoryOk, WorkerOk, Genuine, ReceivedOk, Invariant;
    if t == |s.calls| {
      assert ReceivedOk(handler, s.history, NewCall(s, request)) by { NewCallReceived(handler, s, request); }
    }
  }

  lemma NewCallReceived(handler: Handler, s: State, request: Request)
    requires s.history != []
    ensures ReceivedOk(handler, s.history, NewCall(s, request))
  {
  }

  lemma GrowthWorkers(handler: Handler, s: State, s': State, request: Request, w: nat)
    requires Invariant(handler, s) && Grows(s, s', request) && ChannelOk(s') && w < |s'.workers|
    ensures WorkerOk(handler, s', w)
  {
    assert WorkerOk(handler, s, w);
    hide CountersOk, FlagsOk, HistoryOk, CallOk, Genuine, Invariant;
  }

  lemma GrowthCounts(handler: Handler, s: State, s': State, request: Request)
    requires Invariant(handler, s) && Grows(s, s', request)
    ensures CountersOk(s') && FlagsOk(s') && HistoryOk(s')
  {
    UncountedAppend(s.calls, NewCall(s, request));
    if s'.workers != s.workers {
      BusyUpdate(s.workers, s'.owner[|s.owner|], Holding(|s.calls|));
    }
    hide ChannelOk, CallOk, WorkerOk, HistoryOk, Busy, Uncounted, Invariant;
  }

  lemma KeepGrowth(handler: Handler, s: State, s': State, request: Request)
    requires Invariant(handler, s) && Grows(s, s', request)
    ensures Invariant(handler, s')
  {
    GrowthCounts(handler, s, s', request);
    forall t: nat | t < |s'.calls|
      ensures ChannelOk(s') && CallOk(handler, s'.history, s'.calls[t], Pending(s', t))
    {
      GrowthCalls(handler, s, s', request, t);
    }
    assert ChannelOk(s') by { GrowthCalls(handler, s, s', request, |s.calls|); }
    hide Grows, ChannelOk, CallOk, WorkerOk, HistoryOk, CountersOk, FlagsOk, Pending;
    forall w: nat | w < |s'.workers|
      ensures WorkerOk(handler, s', w)
    {
      GrowthWorkers(handler, s, s', request, w);
    }
  }

  // ----- the store changes, the queue stops -----

  lemma ApplyConsistent(c: Entries, event: Event)
    requires Consistent(c)
    ensures Consistent(Apply(c, event))
  {
  }

  /** The store goes on; replies computed before keep the state they were computed from. */
  lemma KeepHistory(handler: Handler, s: State, s': State)
    requires Invariant(handler, s) && s' == s.(history := s'.history) && HistoryOk(s')
    requires |s.history| <= |s'.history| && s'.history[..|s.history|] == s.history
    ensures Invariant(handler, s')
  {
    forall t: nat | t < |s'.calls|
      ensures CallOk(handler, s'.history, s'.calls[t], Pending(s', t))
    {
      assert CallOk(handler, s.history, s.calls[t], Pending(s, t));
      CallUnderHistory(handler, s.history, s'.history, s.calls[t], Pending(s, t));
    }
    hide CallOk, HistoryOk, CountersOk, Genuine;
    forall w: nat | w < |s'.workers|
      ensures WorkerOk(handler, s', w)
    {
      assert WorkerOk(handler, s, w);
      if s.workers[w].Answering? {
        GenuineKept(handler, s.history, s'.history, s.calls[s.workers[w].ticket], s.workers[w].reply);
      }
    }
  }

  lemma CallUnderHistory(handler: Handler, history: seq<Entries>, more: seq<Entries>, call: Call, pending: bool)
    requires CallOk(handler, history, call, pending) && |history| <= |more| && more[..|history|] == history
    ensures CallOk(handler, more, call, pending)
  {
    hide Genuine;
    if call.slot.Some? {
      GenuineKept(handler, history, more, call, call.slot.value);
    }
    if call.stage.Received? {
      assert more[..call.stage.until] == history[..call.stage.until];
    }
  }

  /** Flags and the callers' refusals. */
  lemma KeepFlags(handler: Handler, s: State, s': State)
    requires Invariant(handler, s) && FlagsOk(s') && s'.dropped <= s'.refused
    requires
      s' == s.(cancelled := s'.cancelled, closed := s'.closed, stopped := s'.stopped, refused := s'.refused,
               panics := s'.panics, dropped := s'.dropped)
    ensures Invariant(handler, s')
  {
    hide Genuine, ReceivedOk, Serves, FlagsOk, Busy, Uncounted, Consistent;
    forall t: nat | t < |s'.calls|
      ensures CallOk(handler, s'.history, s'.calls[t], Pending(s', t))
    {
      assert CallOk(handler, s.history, s.calls[t], Pending(s, t));
    }
    forall w: nat | w < |s'.workers|
      ensures WorkerOk(handler, s', w)
    {
      assert WorkerOk(handler, s, w);
    }
  }

  lemma KeepFlagStep(handler: Handler, s: State, step: Step)
    requires Invariant(handler, s) && Enabled(s, step)
    requires step.Refuse? || step.SubmitPanics? || step.CountDropped?
          || step.Cancel? || step.Close? || step.StopReturns?
    ensures Invariant(handler, Next(handler, s, step))
  {
    assert FlagsOk(s) && s.dropped <= s.refused;
    hide Invariant, CanWork, AfterMove, CanAct, AfterAct, Apply;
    KeepFlags(handler, s, Next(handler, s, step));
  }

  lemma KeepChange(handler: Handler, s: State, event: Event)
    requires Invariant(handler, s) && Enabled(s, Change(event))
    ensures Invariant(handler, Next(handler, s, Change(event)))
  {
    assert HistoryOk(s);
    ApplyConsistent(s.history[|s.history| - 1], event);
    hide Invariant, CanWork, AfterMove, CanAct, AfterAct, Apply, Consistent;
    KeepHistory(handler, s, Next(handler, s, Change(event)));
  }

  lemma KeepAccepted(handler: Handler, s: State, step: Step)
    requires Invariant(handler, s) && Enabled(s, step) && (step.Submit? || step.Handoff?)
    ensures Invariant(handler, Next(handler, s, step))
  {
    hide Invariant, CanWork, AfterMove, CanAct, AfterAct, Apply;
    KeepGrowth(handler, s, Next(handler, s, step), step.request);
  }

  lemma StepKeepsInvariant(handler: Handler, s: State, step: Step)
    requires Invariant(handler, s) && Enabled(s, step)
    ensures Invariant(handler, Next(handler, s, step))
  {
    hide Invariant, CanWork, AfterMove, CanAct, AfterAct, Apply, AllExited;
    match step
    case Change(event) => KeepChange(handler, s, event);
    case Submit(_) => KeepAccepted(handler, s, step);
    case Handoff(_, _) => KeepAccepted(handler, s, step);
    case Work(w, move) => KeepMove(handler, s, w, move);
    case Await(t, act) => KeepAct(handler, s, t, act);
    case _ => KeepFlagStep(handler, s, step);
  }

  lemma {:induction false} RunKeepsInvariant(handler: Handler, capacity: nat, workers: nat, steps: seq<Step>)
    ensures
      match Execute(handler, Init(capacity, workers), steps)
      case None => true
      case Some(s) => Invariant(handler, s)
  {
    if steps == [] {
      InitInvariant(handler, capacity, workers);
    } else {
      RunKeepsInvariant(handler, capacity, workers, steps[..|steps| - 1]);
      hide Invariant, Enabled, Next;
      var before := Execute(handler, Init(capacity, workers), steps[..|steps| - 1]);
      if before.Some? && Enabled(before.value, steps[|steps| - 1]) {
        StepKeepsInvariant(handler, before.value, steps[|steps| - 1]);
      }
    }
  }

  lemma ReachableInvariant(handler: Handler, capacity: nat, workers: nat, s: State)
    requires Reachable(handler, capacity, workers, s)
    ensures Invariant(handler, s)
  {
    var steps :| Execute(handler, Init(capacity, workers), steps) == Some(s);
    RunKeepsInvariant(handler, capacity, workers, steps);
  }
}
