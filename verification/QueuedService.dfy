/** The queue and the service around it as objects, between two waits: what one
    caller gets, given how far the workers come while it waits. */
module QueuedService {
  import opened Models
  import opened Cache
  import opened Service
  import opened Queue = RequestQueue
  import opened QueuedReads

  /** The reply channel holds at most one reply. */
  class QueuedRequest {
    const request: Request
    var responseChan: Option<Result<Answer>>

    constructor (request: Request)
      ensures this.request == request && responseChan == None
    {
      this.request := request;
      responseChan := None;
    }
  }

  /** The reply to a request when the cache holds `c`. */
  function ReplyTo(c: Entries, request: Request, panics: bool, clock: Time -> string): Result<Answer> {
    if panics then Err(InternalServerError) else Respond(c, request, clock)
  }

  /** What happens during a wait: how many requests the workers process, on which of
      them the handler panics, whether the queue is shut down before the timeout, and how
      the store changes, `changes(k)` being the changes just before turn `k`. */
  datatype Wait = Wait(turns: nat, panics: nat -> bool, shutDown: bool, changes: nat -> seq<Event>)

  function Served(wait: Wait, depth: nat): nat {
    if wait.turns < depth then wait.turns else depth
  }

  /** The store after the first `n` groups of changes. */
  function StoreAfter(c: Entries, changes: nat -> seq<Event>, n: nat): Entries {
    if n == 0 then c else ApplyAll(StoreAfter(c, changes, n - 1), changes(n - 1))
  }

  /** What the queue returns for a request sent when `depth` others were waiting and the
      store held `c`: it is answered in turn `depth`, from the store as it is then. */
  function QueueReturns(
    c: Entries, request: Request, depth: nat, capacity: nat, wait: Wait, clock: Time -> string): Result<Answer>
  {
    if depth >= capacity then Err(QueueFull)
    else if depth < wait.turns then
      ReplyTo(StoreAfter(c, wait.changes, depth + 1), request, wait.panics(depth), clock)
    else if wait.shutDown then Err(QueueShuttingDown)
    else Err(QueueTimeout)
  }

  /** Others write to the cache, and its cleanup runs. */
  method Meanwhile(cache: InMemoryCache, events: seq<Event>)
    requires cache.Valid()
    modifies cache
    ensures cache.Valid() && cache.Contents() == ApplyAll(old(cache.Contents()), events)
  {
    hide Put, PutBatch, Evict, Consistent;
    for i := 0 to |events|
      invariant cache.Valid() && cache.Contents() == ApplyAll(old(cache.Contents()), events[..i])
    {
      assert events[..i + 1][..i] == events[..i];
      match events[i] {
        case Update(id, record, fallback, now) => var ok := cache.UpdateMetrics(id, record, fallback, now);
        case Bulk(batch, now) => cache.UpdateBatch(batch, now);
        case Cleanup(maxAge, now) => var removed := cache.CleanupStale(maxAge, now);
      }
    }
    assert events[..|events|] == events;
  }

  /** The handlers of queued requests, on top of direct reads. */
  class Handlers {
    const baseService: TelemetryService

    constructor (baseService: TelemetryService)
      ensures this.baseService == baseService
    {
      this.baseService := baseService;
    }

    method HandleGetMetric(id: string, metric: MetricType, clock: Time -> string, now: Time) returns (r: Result<Answer>)
      requires baseService.store.Valid()
      modifies baseService.store.cache`requestCount, baseService.store.cache`hitCount
      ensures baseService.store.Valid()
      ensures r == Respond(old(baseService.store.cache.Contents()), Queue.ReadMetric(id, metric), clock)
    {
      var response := baseService.GetMetric(id, metric, now);
      match response
      case Err(e) => return Err(e);
      case Ok(m) => return Ok(MetricValue(m.value));
    }

    method HandleGetAllMetrics(id: string, clock: Time -> string) returns (r: Result<Answer>)
      requires baseService.store.Valid()
      modifies baseService.store.cache`requestCount, baseService.store.cache`hitCount
      ensures baseService.store.Valid()
      ensures r == Respond(old(baseService.store.cache.Contents()), ReadSwitch(id), clock)
    {
      hide ToMap, Rebuild;
      var response := baseService.GetSwitchMetrics(id, clock);
      match response
      case Err(e) => return Err(e);
      case Ok(m) => return Ok(Record(Rebuild(id, m.metrics, m.timestamp)));
    }

    /** Rebuilds every record of the report: the result is the cache's own table. */
    method HandleListAllSwitches(clock: Time -> string) returns (r: map<string, TelemetryData>)
      requires baseService.store.Valid()
      modifies baseService.store.cache`requestCount, baseService.store.cache`hitCount
      ensures baseService.store.Valid()
      ensures r == old(baseService.store.cache.data)
    {
      hide ToMap, Rebuild, IsReport, Consistent;
      ghost var c := baseService.store.cache.Contents();
      var report := baseService.GetAllMetrics(clock);
      r := map[];
      for i := 0 to |report|
        invariant baseService.store.Valid()
        invariant forall id | id in r :: id in c.data && r[id] == c.data[id]
        invariant forall k :: 0 <= k < i ==> report[k].switchId in r
      {
        ReportEntry(c, report, i, clock);
        r := r[report[i].switchId := Rebuild(report[i].switchId, report[i].metrics, report[i].timestamp)];
      }
      ReportComplete(c, report, clock);
    }
  }

  /** An entry of a report rebuilds the record it was made from. */
  lemma ReportEntry(c: Entries, report: seq<MetricsListResponse>, i: nat, clock: Time -> string)
    requires Consistent(c) && IsReport(c, report, clock) && i < |report|
    ensures report[i].switchId in c.data
    ensures Rebuild(report[i].switchId, report[i].metrics, report[i].timestamp) == c.data[report[i].switchId]
  {
    hide ToMap, Rebuild;
    var entry := report[i];
    assert entry in report;
    RebuildUndoesToMap(c.data[entry.switchId], clock);
  }

  lemma ReportComplete(c: Entries, report: seq<MetricsListResponse>, clock: Time -> string)
    requires IsReport(c, report, clock)
    ensures forall id | id in c.data :: exists k: nat :: k < |report| && report[k].switchId == id
  {
    hide ToMap;
    forall id | id in c.data
      ensures exists k: nat :: k < |report| && report[k].switchId == id
    {
      var entry :| entry in report && entry.switchId == id;
    }
  }

  class RequestQueue {
    const capacity: nat
    const handler: Handlers
    var requestChan: seq<QueuedRequest>
    var cancelled: bool
    var closed: bool
    var queuedRequests: nat
    var processedRequests: nat
    var droppedRequests: nat

    /** Waiting requests are distinct and unanswered. */
    ghost predicate Valid()
      reads this, requestChan
    {
      && |requestChan| <= capacity
      && (forall q | q in requestChan :: q.responseChan.None?)
      && (forall i, k :: 0 <= i < k < |requestChan| ==> requestChan[i] != requestChan[k])
    }

    constructor (capacity: nat, handler: Handlers)
      ensures Valid() && this.capacity == capacity && this.handler == handler
      ensures requestChan == [] && !cancelled && !closed
      ensures queuedRequests == 0 && processedRequests == 0 && droppedRequests == 0
    {
      this.capacity, this.handler := capacity, handler;
      requestChan, cancelled, closed := [], false, false;
      queuedRequests, processedRequests, droppedRequests := 0, 0, 0;
    }

    /** The non-blocking send; on a closed channel it would panic. */
    method Send(q: QueuedRequest) returns (ok: bool)
      requires Valid() && !closed && q.responseChan.None? && q !in requestChan
      modifies this`requestChan, this`queuedRequests, this`droppedRequests
      ensures Valid()
      ensures ok <==> |old(requestChan)| < capacity
      ensures requestChan == old(requestChan) + if ok then [q] else []
      ensures queuedRequests == old(queuedRequests) + if ok then 1 else 0
      ensures droppedRequests == old(droppedRequests) + if ok then 0 else 1
    {
      if |requestChan| < capacity {
        requestChan := requestChan + [q];
        queuedRequests := queuedRequests + 1;
        return true;
      }
      droppedRequests := droppedRequests + 1;
      return false;
    }

    /** Answers one request; `panics` tells whether the handler panics. */
    method ProcessRequest(q: QueuedRequest, panics: bool, clock: Time -> string, now: Time)
      requires handler.baseService.store.Valid() && q.responseChan.None?
      modifies q, handler.baseService.store.cache`requestCount, handler.baseService.store.cache`hitCount
      ensures handler.baseService.store.Valid()
      ensures q.responseChan
           == Some(ReplyTo(old(handler.baseService.store.cache.Contents()), q.request, panics, clock))
    {
      hide ToMap, Rebuild;
      if panics {
        q.responseChan := Some(Err(InternalServerError));
        return;
      }
      var response;
      match q.request {
        case ReadMetric(id, metric) => response := handler.HandleGetMetric(id, metric, clock, now);
        case ReadSwitch(id) => response := handler.HandleGetAllMetrics(id, clock);
        case ListSwitches =>
          var all := handler.HandleListAllSwitches(clock);
          response := Ok(Listing(all));
      }
      if q.responseChan.None? {
        q.responseChan := Some(response);
      }
    }

    /** One turn of a worker: the store has changed, and the oldest request is taken,
        answered and counted. */
    method ServeOldest(events: seq<Event>, panics: bool, clock: Time -> string, now: Time)
      requires Valid() && handler.baseService.store.Valid() && requestChan != []
      modifies this`requestChan, this`processedRequests, requestChan[0], handler.baseService.store.cache
      ensures Valid() && handler.baseService.store.Valid()
      ensures
        var c := ApplyAll(old(handler.baseService.store.cache.Contents()), events);
        && requestChan == old(requestChan)[1..] && processedRequests == old(processedRequests) + 1
        && handler.baseService.store.cache.Contents() == c
        && old(requestChan)[0].responseChan == Some(ReplyTo(c, old(requestChan)[0].request, panics, clock))
    {
      hide ReplyTo, ApplyAll, Consistent;
      Meanwhile(handler.baseService.store.cache, events);
      var q := requestChan[0];
      requestChan := requestChan[1..];
      ProcessRequest(q, panics, clock, now);
      processedRequests := processedRequests + 1;
    }

    /** The worker loop during a wait: requests are answered in the order in which they
        were sent, each once, each from the store as it is in its turn. */
    method Serve(wait: Wait, clock: Time -> string, now: Time)
      requires Valid() && handler.baseService.store.Valid()
      modifies this`requestChan, this`processedRequests, requestChan, handler.baseService.store.cache
      ensures Valid() && handler.baseService.store.Valid()
      ensures
        var c := old(handler.baseService.store.cache.Contents());
        var served := Served(wait, |old(requestChan)|);
        && requestChan == old(requestChan)[served..]
        && processedRequests == old(processedRequests) + served
        && handler.baseService.store.cache.Contents() == StoreAfter(c, wait.changes, served)
        && forall i :: 0 <= i < served ==>
             old(requestChan)[i].responseChan
             == Some(ReplyTo(StoreAfter(c, wait.changes, i + 1), old(requestChan)[i].request, wait.panics(i), clock))
    {
      hide ReplyTo, ApplyAll, Consistent;
      ghost var c := handler.baseService.store.cache.Contents();
      ghost var all := requestChan;
      var i := 0;
      while i < wait.turns && requestChan != []
        invariant i <= wait.turns && i <= |all| && requestChan == all[i..]
        invariant Valid() && handler.baseService.store.Valid()
        invariant handler.baseService.store.cache.Contents() == StoreAfter(c, wait.changes, i)
        invariant processedRequests == old(processedRequests) + i
        invariant forall k :: 0 <= k < i ==>
                    all[k].responseChan
                    == Some(ReplyTo(StoreAfter(c, wait.changes, k + 1), all[k].request, wait.panics(k), clock))
      {
        ServeOldest(wait.changes(i), wait.panics(i), clock, now);
        i := i + 1;
      }
    }

    /** One queued call: send, then wait for the reply, the timeout or the shutdown. */
    method QueueAndWait(request: Request, wait: Wait, clock: Time -> string, now: Time) returns (r: Result<Answer>)
      requires Valid() && !closed && handler.baseService.store.Valid()
      modifies this, requestChan, handler.baseService.store.cache
      ensures Valid() && !closed && handler.baseService.store.Valid()
      ensures
        var c := old(handler.baseService.store.cache.Contents());
        var served := Served(wait, |old(requestChan)| + 1);
        && r == QueueReturns(c, request, |old(requestChan)|, capacity, wait, clock)
        && if old(|requestChan| >= capacity) then
             && requestChan == old(requestChan) && droppedRequests == old(droppedRequests) + 1
             && queuedRequests == old(queuedRequests) && processedRequests == old(processedRequests)
             && handler.baseService.store.cache.Contents() == c
           else
             && |requestChan| + served == |old(requestChan)| + 1
             && processedRequests == old(processedRequests) + served
             && queuedRequests == old(queuedRequests) + 1 && droppedRequests == old(droppedRequests)
             && handler.baseService.store.cache.Contents() == StoreAfter(c, wait.changes, served + 1)
    {
      hide ReplyTo, ApplyAll, Consistent;
      ghost var c := handler.baseService.store.cache.Contents();
      ghost var depth := |requestChan|;
      var q := new QueuedRequest(request);
      var ok := Send(q);
      if !ok {
        return Err(QueueFull);
      }
      assert requestChan[depth] == q;
      ghost var sent := requestChan;
      var before := processedRequests;
      Serve(wait, clock, now);
      Meanwhile(handler.baseService.store.cache, wait.changes(processedRequests - before));
      if depth >= wait.turns {
        assert requestChan[depth - wait.turns] == q;
      } else {
        assert sent[depth].responseChan
            == Some(ReplyTo(StoreAfter(c, wait.changes, depth + 1), sent[depth].request, wait.panics(depth), clock));
      }
      match q.responseChan {
        case Some(reply) =>
          q.responseChan := None;
          return reply;
        case None =>
          return Err(if wait.shutDown then QueueShuttingDown else QueueTimeout);
      }
    }

    /** Cancel, close, and wait for the workers, which may take some more requests
        before they leave: the oldest ones are still answered, the rest never. */
    method Stop(wait: Wait, clock: Time -> string, now: Time)
      requires Valid() && !closed && handler.baseService.store.Valid()
      modifies this, requestChan, handler.baseService.store.cache
      ensures Valid() && closed && cancelled && handler.baseService.store.Valid()
      ensures
        var c := old(handler.baseService.store.cache.Contents());
        var served := Served(wait, |old(requestChan)|);
        && requestChan == old(requestChan)[served..] && (forall q | q in requestChan :: q.responseChan.None?)
        && forall i :: 0 <= i < served ==>
             old(requestChan)[i].responseChan
             == Some(ReplyTo(StoreAfter(c, wait.changes, i + 1), old(requestChan)[i].request, wait.panics(i), clock))
    {
      cancelled := true;
      closed := true;
      Serve(wait, clock, now);
    }
  }

  /** The service that reads through the queue, if that is enabled. */
  class QueuedTelemetryService {
    const baseService: TelemetryService
    const requestQueue: RequestQueue
    const queueEnabled: bool

    constructor (baseService: TelemetryService, requestQueue: RequestQueue, queueEnabled: bool)
      ensures this.baseService == baseService && this.requestQueue == requestQueue && this.queueEnabled == queueEnabled
    {
      this.baseService, this.requestQueue, this.queueEnabled := baseService, requestQueue, queueEnabled;
    }

    ghost predicate Valid()
      reads requestQueue, requestQueue.requestChan, baseService.store, baseService.store.cache
    {
      && baseService.store.Valid()
      && requestQueue.Valid() && !requestQueue.closed && requestQueue.handler.baseService == baseService
    }

    method GetSwitchMetrics(id: string, wait: Wait, clock: Time -> string, now: Time)
      returns (r: Result<MetricsListResponse>)
      requires Valid()
      modifies requestQueue, requestQueue.requestChan, baseService.store.cache
      ensures Valid()
      ensures
        var c := old(baseService.store.cache.Contents());
        var depth := old(|requestQueue.requestChan|);
        r == if !queueEnabled then SwitchMetrics(c, id, clock)
             else if depth >= requestQueue.capacity then Err(QueueFull)
             else if depth >= wait.turns then Err(if wait.shutDown then QueueShuttingDown else QueueTimeout)
             else if wait.panics(depth) then Err(InternalServerError)
             else SwitchMetrics(StoreAfter(c, wait.changes, depth + 1), id, clock)
    {
      hide ToMap, Rebuild, Apply;
      if queueEnabled {
        ghost var c := baseService.store.cache.Contents();
        ghost var depth := |requestQueue.requestChan|;
        StoreAfterConsistent(c, wait.changes, depth + 1);
        SwitchReadUnchanged(StoreAfter(c, wait.changes, depth + 1), id, clock);
        hide SwitchMetrics, StoreAfter, Consistent;
        var answer := requestQueue.QueueAndWait(ReadSwitch(id), wait, clock, now);
        match answer
        case Err(e) => return Err(e);
        case Ok(Record(td)) => return Ok(MetricsListResponse(id, ToMap(td, clock), td.timestamp));
      } else {
        r := baseService.GetSwitchMetrics(id, clock);
      }
    }

    /** The value is read in the request's turn, the arrival time when the wait is over. */
    method GetMetric(id: string, metric: MetricType, wait: Wait, clock: Time -> string, now: Time)
      returns (r: Result<MetricResponse>)
      requires Valid()
      modifies requestQueue, requestQueue.requestChan, baseService.store.cache
      ensures Valid()
      ensures
        var c := old(baseService.store.cache.Contents());
        var depth := old(|requestQueue.requestChan|);
        var c1, c2 := StoreAfter(c, wait.changes, depth + 1), StoreAfter(c, wait.changes, depth + 2);
        r == if !queueEnabled then SingleMetric(c, c, id, metric, now)
             else if depth >= requestQueue.capacity then Err(QueueFull)
             else if depth >= wait.turns then Err(if wait.shutDown then QueueShuttingDown else QueueTimeout)
             else if wait.panics(depth) then Err(InternalServerError)
             else SingleMetric(c1, c2, id, metric, if LastUpdate(c2, id) == ZERO_TIME then ZERO_TIME else now)
    {
      hide GetMetricValue, StoreAfter, Consistent;
      if queueEnabled {
        var answer := requestQueue.QueueAndWait(Queue.ReadMetric(id, metric), wait, clock, now);
        match answer
        case Err(e) => return Err(e);
        case Ok(MetricValue(v)) =>
          var at := baseService.store.cache.GetLastUpdate(id);
          return Ok(MetricResponse(id, metric, v, at));
      } else {
        r := baseService.GetMetric(id, metric, now);
      }
    }
  }

  lemma {:induction false} ApplyAllConsistent(c: Entries, events: seq<Event>)
    requires Consistent(c)
    ensures Consistent(ApplyAll(c, events))
  {
    hide Apply, Consistent;
    if events != [] {
      ApplyAllConsistent(c, events[..|events| - 1]);
      ApplyConsistent(ApplyAll(c, events[..|events| - 1]), events[|events| - 1]);
    }
  }

  lemma {:induction false} StoreAfterConsistent(c: Entries, changes: nat -> seq<Event>, n: nat)
    requires Consistent(c)
    ensures Consistent(StoreAfter(c, changes, n))
  {
    hide ApplyAll, Consistent;
    if n > 0 {
      StoreAfterConsistent(c, changes, n - 1);
      ApplyAllConsistent(StoreAfter(c, changes, n - 1), changes(n - 1));
    }
  }
}
