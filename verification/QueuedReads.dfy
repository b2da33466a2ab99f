/** Reads through the request queue compared with direct reads. */
module QueuedReads {
  import opened Models
  import opened Cache
  import opened Service
  import opened RequestQueue
  import opened QueueLaws

  // ----- what the service answers to a queued request -----

  /** A number of the response map; a key of another type counts as absent. */
  function FloatAt(metrics: map<string, Value>, key: string): real {
    if key in metrics && metrics[key].Float? then metrics[key].number else 0.0
  }

  function IntAt(metrics: map<string, Value>, key: string): int {
    if key in metrics && metrics[key].Int? then metrics[key].count else 0
  }

  /** The record rebuilt from a response map. */
  function Rebuild(id: string, metrics: map<string, Value>, timestamp: Time): TelemetryData {
    TelemetryData(
      id,
      timestamp,
      FloatAt(metrics, METRIC_BANDWIDTH),
      FloatAt(metrics, METRIC_LATENCY),
      IntAt(metrics, METRIC_PACKET_ERRORS),
      FloatAt(metrics, METRIC_UTILIZATION),
      FloatAt(metrics, METRIC_TEMPERATURE))
  }

  /** The answer to a request when the cache holds `c`. */
  function Respond(c: Entries, request: Request, clock: Time -> string): Result<Answer> {
    match request
    case ReadMetric(id, metric) =>
      if id == "" then Err(EmptySwitchId)
      else
        (match Cache.ReadMetric(c, id, metric)
         case Err(e) => Err(MetricReadFailed(id, e))
         case Ok(v) => Ok(MetricValue(v)))
    case ReadSwitch(id) =>
      (match SwitchMetrics(c, id, clock)
       case Err(e) => Err(e)
       case Ok(r) => Ok(Record(Rebuild(id, r.metrics, r.timestamp))))
    case ListSwitches => Ok(Listing(c.data))
  }

  function Answers(clock: Time -> string): Handler {
    (c, request) => Respond(c, request, clock)
  }

  /** The response map of a record holds the whole record: rebuilding it loses nothing. */
  lemma RebuildUndoesToMap(td: TelemetryData, clock: Time -> string)
    ensures Rebuild(td.switchId, ToMap(td, clock), td.timestamp) == td
  {
    MetricViewsAgree(td, METRIC_BANDWIDTH, clock);
    MetricViewsAgree(td, METRIC_LATENCY, clock);
    MetricViewsAgree(td, METRIC_PACKET_ERRORS, clock);
    MetricViewsAgree(td, METRIC_UTILIZATION, clock);
    MetricViewsAgree(td, METRIC_TEMPERATURE, clock);
    DistinctMetrics();
    hide ToMap;
  }

  // ----- the callers' side -----

  /** What the queue gives the caller of an accepted request. */
  function QueueResult(stage: Stage): Result<Answer>
    requires stage.Received? || stage.TimedOut? || stage.ShutDown?
  {
    match stage
    case Received(reply, _) => reply.result
    case TimedOut => Err(QueueTimeout)
    case ShutDown => Err(QueueShuttingDown)
  }

  function QueuedSwitchMetrics(id: string, answer: Result<Answer>, clock: Time -> string): Result<MetricsListResponse>
    requires answer.Ok? ==> answer.value.Record?
  {
    match answer
    case Err(e) => Err(e)
    case Ok(Record(td)) => Ok(MetricsListResponse(id, ToMap(td, clock), td.timestamp))
  }

  /** The arrival time is read later, when the cache holds `d`, and not replaced by
      the current time if there is none. */
  function QueuedMetric(d: Entries, id: string, metric: MetricType, answer: Result<Answer>): Result<MetricResponse>
    requires answer.Ok? ==> answer.value.MetricValue?
  {
    match answer
    case Err(e) => Err(e)
    case Ok(MetricValue(v)) => Ok(MetricResponse(id, metric, v, LastUpdate(d, id)))
  }

  /** The detour through the queue's record does not change a direct read. */
  lemma SwitchReadUnchanged(c: Entries, id: string, clock: Time -> string)
    requires Consistent(c)
    ensures Respond(c, ReadSwitch(id), clock).Ok? ==> Respond(c, ReadSwitch(id), clock).value.Record?
    ensures QueuedSwitchMetrics(id, Respond(c, ReadSwitch(id), clock), clock) == SwitchMetrics(c, id, clock)
  {
    if id in c.data {
      RebuildUndoesToMap(c.data[id], clock);
    }
    hide ToMap, Rebuild;
  }

  /** A queued read of a metric gives what a direct read can give, except for one
      case: the direct read answers with the current time where the queued read
      leaves the arrival time zero. */
  lemma QueuedMetricAgreesIff(
    c: Entries, d: Entries, id: string, metric: MetricType, clock: Time -> string, now: Time)
    ensures Respond(c, ReadMetric(id, metric), clock).Ok? ==>
              Respond(c, ReadMetric(id, metric), clock).value.MetricValue?
    ensures
      QueuedMetric(d, id, metric, Respond(c, ReadMetric(id, metric), clock)) == SingleMetric(c, d, id, metric, now)
      <==> Respond(c, ReadMetric(id, metric), clock).Err? || LastUpdate(d, id) != ZERO_TIME || now == ZERO_TIME
  {
    hide GetMetricValue;
  }

  /** The exception is real: the entry is evicted between the two reads. */
  lemma EvictedBetweenReads(td: TelemetryData, arrival: Time, cutoff: Time, clock: Time -> string, now: Time)
    requires td.switchId != "" && arrival < cutoff && now != ZERO_TIME
    ensures
      var c := Put(EMPTY, td.switchId, td, now, arrival);
      var answer := Respond(c, ReadMetric(td.switchId, METRIC_LATENCY), clock);
      && answer.Ok? && answer.value.MetricValue?
      && QueuedMetric(Evict(c, cutoff), td.switchId, METRIC_LATENCY, answer)
         != SingleMetric(c, Evict(c, cutoff), td.switchId, METRIC_LATENCY, now)
  {
    DistinctMetrics();
  }

  // ----- refinement in every run -----

  predicate Finished(s: State, t: nat) {
    t < |s.calls| && (s.calls[t].stage.Received? || s.calls[t].stage.TimedOut? || s.calls[t].stage.ShutDown?)
  }

  /** In every run, whatever the store and the other callers do meanwhile, a queued
      read of a switch returns one of the queue's own errors, or exactly what a
      direct read returns in some state the store had between call and return. */
  lemma QueuedReadRefinesDirect(
    clock: Time -> string, capacity: nat, workers: nat, s: State, t: nat, id: string)
    requires Reachable(Answers(clock), capacity, workers, s) && Finished(s, t)
    requires s.calls[t].request == ReadSwitch(id)
    ensures QueueResult(s.calls[t].stage).Ok? ==> QueueResult(s.calls[t].stage).value.Record?
    ensures
      var r := QueuedSwitchMetrics(id, QueueResult(s.calls[t].stage), clock);
      match s.calls[t].stage
      case TimedOut => r == Err(QueueTimeout)
      case ShutDown => r == Err(QueueShuttingDown)
      case Received(reply, until) =>
        (reply.seen.None? && r == Err(InternalServerError))
        || (reply.seen.Some? && s.calls[t].since <= reply.seen.value < until <= |s.history|
            && r == SwitchMetrics(s.history[reply.seen.value], id, clock))
  {
    if s.calls[t].stage.Received? {
      CallersGetTheirOwnAnswer(Answers(clock), capacity, workers, s, t);
      StatesAreConsistent(Answers(clock), capacity, workers, s);
      var reply := s.calls[t].stage.reply;
      if reply.seen.Some? {
        SwitchReadUnchanged(s.history[reply.seen.value], id, clock);
      }
    }
    hide SwitchMetrics, Consistent, Rebuild, ToMap, Reachable;
  }

  lemma StatesAreConsistent(handler: Handler, capacity: nat, workers: nat, s: State)
    requires Reachable(handler, capacity, workers, s)
    ensures forall k :: 0 <= k < |s.history| ==> Consistent(s.history[k])
  {
    ReachableInvariant(handler, capacity, workers, s);
    hide Reachable, CallOk, WorkerOk, ChannelOk;
  }

  /** Likewise a queued read of a metric whose arrival time is found in state `m`,
      after the reply: it is a direct read with its value read in one state between
      call and return, and its arrival time in a later one. */
  lemma QueuedMetricRefinesDirect(
    clock: Time -> string, capacity: nat, workers: nat, s: State, t: nat, id: string, metric: MetricType, m: nat,
    now: Time)
    requires Reachable(Answers(clock), capacity, workers, s) && Finished(s, t)
    requires s.calls[t].request == RequestQueue.ReadMetric(id, metric)
    requires m < |s.history| && LastUpdate(s.history[m], id) != ZERO_TIME
    requires s.calls[t].stage.Received? ==> s.calls[t].stage.until <= m + 1
    ensures QueueResult(s.calls[t].stage).Ok? ==> QueueResult(s.calls[t].stage).value.MetricValue?
    ensures
      var r := QueuedMetric(s.history[m], id, metric, QueueResult(s.calls[t].stage));
      match s.calls[t].stage
      case TimedOut => r == Err(QueueTimeout)
      case ShutDown => r == Err(QueueShuttingDown)
      case Received(reply, until) =>
        (reply.seen.None? && r == Err(InternalServerError))
        || (reply.seen.Some? && s.calls[t].since <= reply.seen.value < until && reply.seen.value <= m
            && r == SingleMetric(s.history[reply.seen.value], s.history[m], id, metric, now))
  {
    if s.calls[t].stage.Received? {
      CallersGetTheirOwnAnswer(Answers(clock), capacity, workers, s, t);
      var reply := s.calls[t].stage.reply;
      if reply.seen.Some? {
        QueuedMetricAgreesIff(s.history[reply.seen.value], s.history[m], id, metric, clock, now);
      }
    }
    hide SingleMetric, Reachable, Cache.ReadMetric;
  }

  /** A queued listing is the cache's table in such a state. */
  lemma QueuedListingRefinesDirect(clock: Time -> string, capacity: nat, workers: nat, s: State, t: nat)
    requires Reachable(Answers(clock), capacity, workers, s) && Finished(s, t)
    requires s.calls[t].request == ListSwitches && QueueResult(s.calls[t].stage).Ok?
    ensures exists k: nat ::
              && s.calls[t].since <= k < |s.history|
              && QueueResult(s.calls[t].stage) == Ok(Listing(s.history[k].data))
  {
    CallersGetTheirOwnAnswer(Answers(clock), capacity, workers, s, t);
    hide Reachable;
  }
}
