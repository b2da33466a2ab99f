/** The telemetry service called directly: ingestion and reads over the store. */
module Service {
  import opened Models
  import Batches
  import opened Cache
  import opened HybridStore

  /** The records that name a switch, in order. */
  function ValidRecords(data: seq<TelemetryData>): seq<TelemetryData> {
    if data == [] then []
    else
      var front := ValidRecords(data[..|data| - 1]);
      var last := data[|data| - 1];
      if last.switchId == "" then front else front + [last]
  }

  /** What a direct read of one switch returns when the cache holds `c`. */
  function SwitchMetrics(c: Entries, id: string, clock: Time -> string): Result<MetricsListResponse> {
    if id == "" then Err(EmptySwitchId)
    else
      match ReadRecord(c, id)
      case Err(e) => Err(MetricReadFailed(id, e))
      case Ok(td) => Ok(MetricsListResponse(id, ToMap(td, clock), td.timestamp))
  }

  /** What a direct read of one metric returns when the value is read while the
      cache holds `c`, and the arrival time while it holds `d`. */
  function SingleMetric(c: Entries, d: Entries, id: string, metric: MetricType, now: Time): Result<MetricResponse> {
    if id == "" then Err(EmptySwitchId)
    else
      match ReadMetric(c, id, metric)
      case Err(e) => Err(MetricReadFailed(id, e))
      case Ok(v) =>
        var at := LastUpdate(d, id);
        Ok(MetricResponse(id, metric, v, if at == ZERO_TIME then now else at))
  }

  /** Responses for every switch of the cache, one each, in some order. */
  ghost predicate IsReport(c: Entries, report: seq<MetricsListResponse>, clock: Time -> string) {
    && |report| == |c.data|
    && (forall r | r in report ::
          r.switchId in c.data
          && r == MetricsListResponse(r.switchId, ToMap(c.data[r.switchId], clock), c.data[r.switchId].timestamp))
    && (forall id | id in c.data :: exists r :: r in report && r.switchId == id)
  }

  class TelemetryService {
    const store: HybridStore

    constructor (store: HybridStore)
      ensures this.store == store
    {
      this.store := store;
    }

    method IngestMetrics(data: TelemetryData, fallback: Time, now: Time) returns (r: Result<()>)
      requires store.Valid()
      modifies store`flushQueue, store`pendingFlushItems, store`totalRequests, store.cache
      ensures store.Valid()
      ensures r == if data.switchId == "" then Err(EmptySwitchId) else Ok(())
      ensures store.cache.Contents() == Put(old(store.cache.Contents()), data.switchId, data, fallback, now)
      ensures store.flushQueue
           == old(store.flushQueue) + if r.Ok? && |old(store.flushQueue)| < Batches.CAPACITY then [[data]] else []
      ensures store.pendingFlushItems
           == old(store.pendingFlushItems) + if r.Ok? && |old(store.flushQueue)| < Batches.CAPACITY then 1 else 0
    {
      if data.switchId == "" {
        return Err(EmptySwitchId);
      }
      var ok := store.UpdateMetrics(data.switchId, data, fallback, now);
      return Ok(());
    }

    /** Ingests a batch: the valid records go to the database in one call, in order,
        or not at all; the cache takes them in either case. */
    method IngestBatch(env: Env, data: seq<TelemetryData>, now: Time) returns (r: Result<()>)
      requires store.Valid()
      modifies store`totalDBWrites, store`pendingFlushItems, store`totalDBWriteErrors
      modifies store.cache, store.repository`log
      ensures store.Valid()
      ensures
        var valid := ValidRecords(data);
        var written := ResultOf(env, Accepted(env, store.repository.References(valid)), store.maxRetries);
        && r == (if data == [] then Ok(())
                 else if valid == [] then Err(NoValidData)
                 else if written.Done? then Ok(())
                 else Err(IngestFailed(if written.ContextCancelled? then ContextDone else RetriesExhausted)))
        && store.repository.log == old(store.repository.log) + (if r.Ok? then valid else [])
        && store.cache.Contents() == PutEach(old(store.cache.Contents()), valid, now)
        && store.totalDBWrites == old(store.totalDBWrites) + (if r.Ok? then |valid| else 0)
        && store.pendingFlushItems == old(store.pendingFlushItems) - (if r.Ok? then |valid| else 0)
        && store.totalDBWriteErrors
           == old(store.totalDBWriteErrors) + (if r == Err(IngestFailed(RetriesExhausted)) then 1 else 0)
      ensures old(store.repository.References(store.repository.log)) ==>
                store.repository.References(store.repository.log)
    {
      if |data| == 0 {
        return Ok(());
      }
      var valid := [];
      for i := 0 to |data|
        invariant valid == ValidRecords(data[..i])
      {
        assert data[..i + 1][..i] == data[..i];
        if data[i].switchId == "" {
          continue;
        }
        valid := valid + [data[i]];
      }
      assert data[..|data|] == data;
      if |valid| == 0 {
        return Err(NoValidData);
      }
      var written := store.StoreMetricsBulk(env, valid, now);
      match written
      case Done => return Ok(());
      case ContextCancelled => return Err(IngestFailed(ContextDone));
      case Failed => return Err(IngestFailed(RetriesExhausted));
    }

    method GetMetric(id: string, metric: MetricType, now: Time) returns (r: Result<MetricResponse>)
      requires store.Valid()
      modifies store.cache`requestCount, store.cache`hitCount
      ensures store.Valid()
      ensures r == SingleMetric(old(store.cache.Contents()), store.cache.Contents(), id, metric, now)
    {
      if id == "" {
        return Err(EmptySwitchId);
      }
      var value := store.cache.GetMetric(id, metric);
      if value.Err? {
        return Err(MetricReadFailed(id, value.error));
      }
      var at := store.cache.GetLastUpdate(id);
      if at == ZERO_TIME {
        at := now;
      }
      return Ok(MetricResponse(id, metric, value.value, at));
    }

    method GetSwitchMetrics(id: string, clock: Time -> string) returns (r: Result<MetricsListResponse>)
      requires store.Valid()
      modifies store.cache`requestCount, store.cache`hitCount
      ensures store.Valid()
      ensures r == SwitchMetrics(old(store.cache.Contents()), id, clock)
    {
      if id == "" {
        return Err(EmptySwitchId);
      }
      var data := store.cache.GetAllMetrics(id);
      if data.Err? {
        return Err(MetricReadFailed(id, data.error));
      }
      return Ok(MetricsListResponse(id, ToMap(data.value, clock), data.value.timestamp));
    }

    /** Switches are visited in no particular order. */
    method GetAllMetrics(clock: Time -> string) returns (report: seq<MetricsListResponse>)
      requires store.Valid()
      modifies store.cache`requestCount, store.cache`hitCount
      ensures store.Valid() && IsReport(old(store.cache.Contents()), report, clock)
    {
      var all := store.cache.ListAllSwitches();
      report := [];
      hide ToMap;
      var todo := all.Keys;
      while todo != {}
        invariant todo <= all.Keys && |report| + |todo| == |all|
        invariant forall r | r in report ::
                    r.switchId in all
                    && r == MetricsListResponse(r.switchId, ToMap(all[r.switchId], clock), all[r.switchId].timestamp)
        invariant forall id | id in all && id !in todo :: exists r :: r in report && r.switchId == id
      {
        var id :| id in todo;
        todo := todo - {id};
        var entry := MetricsListResponse(id, ToMap(all[id], clock), all[id].timestamp);
        ghost var before := report;
        report := report + [entry];
        assert entry in report && forall r | r in before :: r in report;
      }
    }

    method RegisterSwitch(id: string, ok: bool) returns (r: Result<()>)
      modifies store.repository`switches
      ensures id == "" ==> r.Err? && store.repository.switches == old(store.repository.switches)
      ensures id != "" ==> (r.Ok? <==> ok)
      ensures store.repository.switches
           == if id != "" && ok && id !in old(store.repository.switches) then old(store.repository.switches) + [id]
              else old(store.repository.switches)
    {
      if id == "" {
        return Err(EmptySwitchId);
      }
      store.repository.CreateSwitch(id, ok);
      return if ok then Ok(()) else Err(RegistrationFailed);
    }
  }

  lemma {:induction false} ValidRecordsKept(data: seq<TelemetryData>)
    ensures forall m :: m in ValidRecords(data) <==> m in data && m.switchId != ""
    ensures |ValidRecords(data)| <= |data|
    ensures (forall m | m in data :: m.switchId != "") ==> ValidRecords(data) == data
  {
    if data != [] {
      ValidRecordsKept(data[..|data| - 1]);
      assert data == data[..|data| - 1] + [data[|data| - 1]];
    }
  }

  lemma {:induction false} ValidRecordsSplit(a: seq<TelemetryData>, b: seq<TelemetryData>)
    ensures ValidRecords(a + b) == ValidRecords(a) + ValidRecords(b)
  {
    if b == [] {
      assert a + b == a;
    } else {
      var n := |b| - 1;
      ValidRecordsSplit(a, b[..n]);
      assert (a + b)[..|a + b| - 1] == a + b[..n];
    }
  }

  /** Order and multiplicity: a record that names a switch is kept at the position that
      counts those before it, and there are no other positions. */
  lemma ValidRecordsInOrder(data: seq<TelemetryData>, i: nat)
    requires i < |data| && data[i].switchId != ""
    ensures |ValidRecords(data[..i])| < |ValidRecords(data)|
    ensures ValidRecords(data)[|ValidRecords(data[..i])|] == data[i]
    ensures ValidRecords(data)
         == ValidRecords(data[..i]) + [data[i]] + ValidRecords(data[i + 1..])
  {
    assert data[..i + 1] + data[i + 1..] == data && data[..i + 1][..i] == data[..i];
    ValidRecordsSplit(data[..i + 1], data[i + 1..]);
  }
}
