/** The in-memory cache: the last record of every switch, and when it arrived. */
module Cache {
  import opened Models

  // ----- the cache as a value -----

  datatype Entries = Entries(data: map<string, TelemetryData>, lastUpdated: map<string, Time>)

  const EMPTY: Entries := Entries(map[], map[])

  /** The copy that is kept: filed under `id`, a missing timestamp filled in. */
  function Stored(id: string, record: TelemetryData, fallback: Time): TelemetryData {
    record.(switchId := id, timestamp := if record.timestamp == ZERO_TIME then fallback else record.timestamp)
  }

  /** The effect of one update; the clock is read once for a missing timestamp and
      once for the arrival time. An empty switch ID has no effect. */
  function Put(c: Entries, id: string, record: TelemetryData, fallback: Time, now: Time): Entries {
    if id == "" then c
    else Entries(c.data[id := Stored(id, record, fallback)], c.lastUpdated[id := now])
  }

  /** The effect of a batch keyed by switch: every entry but the one of the empty
      switch ID is filed with the same clock reading. */
  function PutBatch(c: Entries, batch: map<string, TelemetryData>, now: Time): Entries {
    Entries(c.data + Filed(batch, now), c.lastUpdated + Arrivals(batch, now))
  }

  function Filed(batch: map<string, TelemetryData>, now: Time): map<string, TelemetryData> {
    map id | id in batch && id != "" :: Stored(id, batch[id], now)
  }

  function Arrivals(batch: map<string, TelemetryData>, now: Time): map<string, Time> {
    map id | id in batch && id != "" :: now
  }

  /** Keeps the entries that arrived at `cutoff` or later. */
  function Evict(c: Entries, cutoff: Time): Entries {
    Entries((map id | id in c.data && !(id in c.lastUpdated && c.lastUpdated[id] < cutoff) :: c.data[id]),
            (map id | id in c.lastUpdated && c.lastUpdated[id] >= cutoff :: c.lastUpdated[id]))
  }

  /** Both maps have the same keys, and every record is filed under its own ID. */
  predicate Consistent(c: Entries) {
    && c.data.Keys == c.lastUpdated.Keys
    && forall id | id in c.data :: id != "" && c.data[id].switchId == id
  }

  // ----- the cache object -----

  class InMemoryCache {
    var data: map<string, TelemetryData>
    var lastUpdated: map<string, Time>
    var requestCount: nat
    var hitCount: nat

    ghost function Contents(): Entries
      reads this
    {
      Entries(data, lastUpdated)
    }

    /** Calls are serialised here, so a hit is always also a request. */
    ghost predicate Valid()
      reads this
    {
      Consistent(Contents()) && hitCount <= requestCount
    }

    constructor ()
      ensures Valid() && Contents() == EMPTY && requestCount == 0 && hitCount == 0
    {
      data, lastUpdated := map[], map[];
      requestCount, hitCount := 0, 0;
    }

    method UpdateMetrics(switchId: string, record: TelemetryData, fallback: Time, now: Time) returns (ok: bool)
      requires Valid()
      modifies this`data, this`lastUpdated
      ensures Valid()
      ensures ok <==> switchId != ""
      ensures Contents() == Put(old(Contents()), switchId, record, fallback, now)
    {
      if switchId == "" {
        return false;
      }
      var copy := record.(switchId := switchId);
      if copy.timestamp == ZERO_TIME {
        copy := copy.(timestamp := fallback);
      }
      data := data[switchId := copy];
      lastUpdated := lastUpdated[switchId := now];
      return true;
    }

    /** The batch is visited in no particular order. */
    method UpdateBatch(batch: map<string, TelemetryData>, now: Time)
      requires Valid()
      modifies this`data, this`lastUpdated
      ensures Valid()
      ensures Contents() == PutBatch(old(Contents()), batch, now)
    {
      hide PutBatch, Consistent;
      ghost var before := Contents();
      var todo := batch.Keys;
      ghost var done: map<string, TelemetryData> := map[];
      PutBatchEmpty(before, now);
      while todo != {}
        invariant todo <= batch.Keys
        invariant done.Keys == batch.Keys - todo
        invariant forall id | id in done :: done[id] == batch[id]
        invariant Contents() == PutBatch(before, done, now)
      {
        var id :| id in todo;
        todo := todo - {id};
        PutBatchStep(before, done, id, batch[id], now);
        done := done[id := batch[id]];
        if id == "" {
          continue;
        }
        var copy := batch[id].(switchId := id);
        if copy.timestamp == ZERO_TIME {
          copy := copy.(timestamp := now);
        }
        data := data[id := copy];
        lastUpdated := lastUpdated[id := now];
      }
      assert done == batch;
      PutBatchConsistent(before, batch, now);
    }

    method GetMetric(switchId: string, metric: MetricType) returns (r: Result<Value>)
      requires Valid()
      modifies this`requestCount, this`hitCount
      ensures Valid() && requestCount == old(requestCount) + 1
      ensures hitCount == old(hitCount) + if switchId in data then 1 else 0
      ensures r == ReadMetric(Contents(), switchId, metric)
    {
      requestCount := requestCount + 1;
      if switchId !in data {
        return Err(SwitchNotFound(switchId));
      }
      hitCount := hitCount + 1;
      return GetMetricValue(data[switchId], metric);
    }

    method GetAllMetrics(switchId: string) returns (r: Result<TelemetryData>)
      requires Valid()
      modifies this`requestCount, this`hitCount
      ensures Valid() && requestCount == old(requestCount) + 1
      ensures hitCount == old(hitCount) + if switchId in data then 1 else 0
      ensures r == ReadRecord(Contents(), switchId)
    {
      requestCount := requestCount + 1;
      if switchId !in data {
        return Err(SwitchNotFound(switchId));
      }
      hitCount := hitCount + 1;
      return Ok(data[switchId]);
    }

    /** Entries are visited in no particular order; each is copied. */
    method ListAllSwitches() returns (result: map<string, TelemetryData>)
      requires Valid()
      modifies this`requestCount, this`hitCount
      ensures Valid() && requestCount == old(requestCount) + 1
      ensures hitCount == old(hitCount) + if data != map[] then 1 else 0
      ensures result == data
    {
      requestCount := requestCount + 1;
      result := map[];
      var todo := data.Keys;
      while todo != {}
        invariant todo <= data.Keys
        invariant result == map id | id in data && id !in todo :: data[id]
      {
        var id :| id in todo;
        todo := todo - {id};
        result := result[id := data[id]];
      }
      if |result| > 0 {
        hitCount := hitCount + 1;
      }
    }

    method GetLastUpdate(switchId: string) returns (t: Time)
      ensures t == LastUpdate(Contents(), switchId)
    {
      if switchId in lastUpdated {
        return lastUpdated[switchId];
      }
      return ZERO_TIME;
    }

    /** Arrival times are visited in no particular order; stale entries go. */
    method CleanupStale(maxAge: int, now: Time) returns (removed: nat)
      requires Valid()
      modifies this`data, this`lastUpdated
      ensures Valid()
      ensures Contents() == Evict(old(Contents()), now - maxAge)
      ensures removed == |old(data)| - |data|
    {
      hide Consistent, Evict;
      ghost var before := Contents();
      var arrivals, cutoff := lastUpdated, now - maxAge;
      var todo := arrivals.Keys;
      removed := 0;
      ConsistentKeys(before);
      while todo != {}
        invariant todo <= arrivals.Keys && data.Keys == lastUpdated.Keys
        invariant forall id :: id in lastUpdated <==> id in arrivals && (id in todo || arrivals[id] >= cutoff)
        invariant Within(Contents(), before)
        invariant removed + |data| == |before.data|
      {
        var id :| id in todo;
        todo := todo - {id};
        if arrivals[id] < cutoff {
          RemoveOne(data, id);
          data := data - {id};
          lastUpdated := lastUpdated - {id};
          removed := removed + 1;
        }
      }
      EvictKeeps(before, Contents(), cutoff);
    }
  }

  /** The entries of `c` are entries of `d`. */
  predicate Within(c: Entries, d: Entries) {
    && (forall id | id in c.data :: id in d.data && c.data[id] == d.data[id])
    && (forall id | id in c.lastUpdated :: id in d.lastUpdated && c.lastUpdated[id] == d.lastUpdated[id])
  }

  lemma ConsistentKeys(c: Entries)
    requires Consistent(c)
    ensures c.data.Keys == c.lastUpdated.Keys
  {
  }

  /** Eviction removes exactly the stale entries and leaves the others as they were. */
  lemma EvictKeeps(c: Entries, d: Entries, cutoff: Time)
    requires Consistent(c) && Within(d, c) && d.data.Keys == d.lastUpdated.Keys
    requires forall id :: id in d.lastUpdated <==> id in c.lastUpdated && c.lastUpdated[id] >= cutoff
    ensures d == Evict(c, cutoff) && Consistent(d)
  {
    assert d.lastUpdated == Evict(c, cutoff).lastUpdated;
    assert d.data == Evict(c, cutoff).data;
  }

  function ReadMetric(c: Entries, id: string, metric: MetricType): Result<Value> {
    if id in c.data then GetMetricValue(c.data[id], metric) else Err(SwitchNotFound(id))
  }

  function ReadRecord(c: Entries, id: string): Result<TelemetryData> {
    if id in c.data then Ok(c.data[id]) else Err(SwitchNotFound(id))
  }

  function LastUpdate(c: Entries, id: string): Time {
    if id in c.lastUpdated then c.lastUpdated[id] else ZERO_TIME
  }

  lemma RemoveOne<V>(m: map<string, V>, id: string)
    requires id in m
    ensures |m - {id}| == |m| - 1
  {
    assert (m - {id}).Keys == m.Keys - {id};
  }

  lemma PutBatchEmpty(c: Entries, now: Time)
    ensures PutBatch(c, map[], now) == c
  {
    assert PutBatch(c, map[], now).data == c.data;
    assert PutBatch(c, map[], now).lastUpdated == c.lastUpdated;
  }

  lemma FiledStep(batch: map<string, TelemetryData>, id: string, record: TelemetryData, now: Time)
    ensures Filed(batch[id := record], now)
         == if id == "" then Filed(batch, now) else Filed(batch, now)[id := Stored(id, record, now)]
    ensures Arrivals(batch[id := record], now)
         == if id == "" then Arrivals(batch, now) else Arrivals(batch, now)[id := now]
  {
  }

  lemma AddThenSet<V>(m: map<string, V>, n: map<string, V>, id: string, v: V)
    ensures m + n[id := v] == (m + n)[id := v]
  {
  }

  lemma PutBatchStep(c: Entries, batch: map<string, TelemetryData>, id: string, record: TelemetryData, now: Time)
    ensures PutBatch(c, batch[id := record], now) == Put(PutBatch(c, batch, now), id, record, now, now)
  {
    hide Stored, Filed, Arrivals;
    FiledStep(batch, id, record, now);
    AddThenSet(c.data, Filed(batch, now), id, Stored(id, record, now));
    AddThenSet(c.lastUpdated, Arrivals(batch, now), id, now);
  }

  lemma PutBatchConsistent(c: Entries, batch: map<string, TelemetryData>, now: Time)
    requires Consistent(c)
    ensures Consistent(PutBatch(c, batch, now))
  {
  }

  // ----- the bulk path against record-by-record updates -----

  /** The map a bulk call builds: the last record of each switch. */
  function LastPerSwitch(records: seq<TelemetryData>): map<string, TelemetryData> {
    if records == [] then map[]
    else
      var last := records[|records| - 1];
      LastPerSwitch(records[..|records| - 1])[last.switchId := last]
  }

  function PutEach(c: Entries, records: seq<TelemetryData>, now: Time): Entries {
    if records == [] then c
    else
      var last := records[|records| - 1];
      Put(PutEach(c, records[..|records| - 1], now), last.switchId, last, now, now)
  }

  /** For one clock reading, the batch of last records has the effect of updating
      record by record in list order. */
  lemma {:induction false} BulkIsSequential(c: Entries, records: seq<TelemetryData>, now: Time)
    ensures PutBatch(c, LastPerSwitch(records), now) == PutEach(c, records, now)
  {
    hide PutBatch, Put;
    if records == [] {
      PutBatchEmpty(c, now);
    } else {
      var front, last := records[..|records| - 1], records[|records| - 1];
      BulkIsSequential(c, front, now);
      PutBatchStep(c, LastPerSwitch(front), last.switchId, last, now);
    }
  }

  // ----- histories -----

  datatype Event =
    | Update(id: string, record: TelemetryData, fallback: Time, now: Time)
    | Bulk(batch: map<string, TelemetryData>, now: Time)
    | Cleanup(maxAge: int, now: Time)

  function Apply(c: Entries, e: Event): Entries {
    match e
    case Update(id, record, fallback, now) => Put(c, id, record, fallback, now)
    case Bulk(batch, now) => PutBatch(c, batch, now)
    case Cleanup(maxAge, now) => Evict(c, now - maxAge)
  }

  function Replay(history: seq<Event>): Entries {
    if history == [] then EMPTY
    else Apply(Replay(history[..|history| - 1]), history[|history| - 1])
  }

  /** The cache after further events. */
  function ApplyAll(c: Entries, events: seq<Event>): Entries {
    if events == [] then c
    else Apply(ApplyAll(c, events[..|events| - 1]), events[|events| - 1])
  }

  /** The record an event files under `id`, if any. */
  function Written(e: Event, id: string): Option<TelemetryData> {
    if id == "" then None
    else
      match e
      case Update(i, record, fallback, now) => if i == id then Some(Stored(id, record, fallback)) else None
      case Bulk(batch, now) => if id in batch then Some(Stored(id, batch[id], now)) else None
      case Cleanup(maxAge, now) => None
  }

  predicate Removes(e: Event, arrival: Time) {
    e.Cleanup? && arrival < e.now - e.maxAge
  }

  /** Event `i` filed a record for `id` that was neither replaced nor removed since. */
  ghost predicate Survives(history: seq<Event>, i: nat, id: string) {
    && i < |history| && Written(history[i], id).Some?
    && forall j :: i < j < |history| ==> Written(history[j], id).None? && !Removes(history[j], history[i].now)
  }

  lemma {:induction false} ReplayConsistent(history: seq<Event>)
    ensures Consistent(Replay(history))
  {
    if history != [] {
      ReplayConsistent(history[..|history| - 1]);
    }
  }

  /** After any history, an entry exists exactly when some write survives, and it
      is that write: the last one for the switch since its last removal. */
  lemma {:induction false} EntryIsLastWrite(history: seq<Event>, id: string)
    ensures id in Replay(history).data <==> exists i: nat :: Survives(history, i, id)
    ensures forall i: nat | Survives(history, i, id) :: Shows(Replay(history), id, history[i])
  {
    if history != [] {
      var n := |history| - 1;
      var front, e := history[..n], history[n];
      EntryIsLastWrite(front, id);
      ReplayConsistent(front);
      ApplyAt(Replay(front), e, id);
      hide Apply, Consistent, Written, Removes;
      if Written(e, id).Some? {
        assert Survives(history, n, id);
      } else {
        forall i: nat | i < n
          ensures Survives(history, i, id) <==> Survives(front, i, id) && !Removes(e, front[i].now)
        {
          SurvivesStep(front, e, i, id);
          assert front + [e] == history;
        }
        if id in Replay(front).data {
          var i: nat :| Survives(front, i, id);
          assert Shows(Replay(front), id, front[i]);
          assert Survives(history, i, id) <==> !Removes(e, front[i].now);
        }
      }
    }
  }

  /** The entry of `id` is what `e` wrote. */
  predicate Shows(c: Entries, id: string, e: Event) {
    && id in c.data && id in c.lastUpdated
    && Written(e, id) == Some(c.data[id]) && c.lastUpdated[id] == e.now
  }

  lemma SurvivesStep(front: seq<Event>, e: Event, i: nat, id: string)
    requires i < |front| && Written(e, id).None?
    ensures Survives(front + [e], i, id) <==> Survives(front, i, id) && !Removes(e, front[i].now)
  {
    hide Written;
    var history := front + [e];
    assert history[|front|] == e;
    assert forall j :: 0 <= j < |front| ==> history[j] == front[j];
  }

  /** What one event does to one entry. */
  lemma ApplyAt(c: Entries, e: Event, id: string)
    requires Consistent(c)
    ensures Written(e, id).Some? ==> Shows(Apply(c, e), id, e)
    ensures Written(e, id).None? ==>
              && (id in Apply(c, e).data <==> id in c.data && !Removes(e, c.lastUpdated[id]))
              && (id in Apply(c, e).data ==>
                    && Apply(c, e).data[id] == c.data[id]
                    && id in Apply(c, e).lastUpdated && Apply(c, e).lastUpdated[id] == c.lastUpdated[id])
  {
    hide Stored;
  }

  // ----- how old an entry can get -----

  predicate ClockRuns(history: seq<Event>, start: Time) {
    && (forall i :: 0 <= i < |history| ==> start <= history[i].now)
    && (forall i, j :: 0 <= i < j < |history| ==> history[i].now <= history[j].now)
  }

  /** The time of the last cleanup, or the start of the worker. */
  function LastCleanup(history: seq<Event>, start: Time): Time {
    if history == [] then start
    else
      var e := history[|history| - 1];
      if e.Cleanup? then e.now else LastCleanup(history[..|history| - 1], start)
  }

  lemma {:induction false} EntriesSinceLastCleanup(history: seq<Event>, start: Time, ttl: nat)
    requires ClockRuns(history, start)
    requires forall e | e in history && e.Cleanup? :: e.maxAge == ttl
    ensures forall id | id in Replay(history).lastUpdated ::
              Replay(history).lastUpdated[id] >= LastCleanup(history, start) - ttl
    ensures history != [] ==> LastCleanup(history, start) <= history[|history| - 1].now
    ensures history == [] ==> LastCleanup(history, start) == start
  {
    if history != [] {
      var n := |history| - 1;
      EntriesSinceLastCleanup(history[..n], start, ttl);
      assert history[n] in history;
    }
  }

  /** While the cleanup worker ticks every `ttl`, no entry is ever `2 * ttl` old. */
  lemma StalenessBound(history: seq<Event>, start: Time, ttl: nat, now: Time)
    requires ClockRuns(history, start)
    requires forall e | e in history && e.Cleanup? :: e.maxAge == ttl
    requires now < LastCleanup(history, start) + ttl
    ensures forall id | id in Replay(history).data :: now - LastUpdate(Replay(history), id) < 2 * ttl
  {
    EntriesSinceLastCleanup(history, start, ttl);
    ReplayConsistent(history);
  }

  // ----- recovery from the database -----

  /** A record of the switch with the greatest timestamp. */
  ghost predicate IsLatest(log: seq<TelemetryData>, id: string, record: TelemetryData) {
    && record in log && record.switchId == id
    && forall x | x in log && x.switchId == id :: x.timestamp <= record.timestamp
  }

  ghost predicate Logged(log: seq<TelemetryData>, id: string) {
    exists x :: x in log && x.switchId == id
  }

  /** A cache that holds, for exactly the logged switches, a latest record. */
  ghost predicate LoadedFrom(log: seq<TelemetryData>, c: Entries) {
    && (forall id :: id in c.data <==> Logged(log, id))
    && (forall id | id in c.data :: IsLatest(log, id, c.data[id]))
  }

  /** Every record names a switch and has a timestamp, as parsing and filtering
      leave them. */
  predicate Stamped(records: seq<TelemetryData>) {
    forall x | x in records :: x.switchId != "" && x.timestamp != ZERO_TIME
  }

  datatype BulkCall = BulkCall(records: seq<TelemetryData>, now: Time)

  function LiveCache(calls: seq<BulkCall>): Entries {
    if calls == [] then EMPTY
    else
      var last := calls[|calls| - 1];
      PutBatch(LiveCache(calls[..|calls| - 1]), LastPerSwitch(last.records), last.now)
  }

  function BulkLog(calls: seq<BulkCall>): seq<TelemetryData> {
    if calls == [] then [] else BulkLog(calls[..|calls| - 1]) + calls[|calls| - 1].records
  }

  lemma {:induction false} LastPerSwitchAppend(a: seq<TelemetryData>, b: seq<TelemetryData>)
    ensures LastPerSwitch(a + b) == LastPerSwitch(a) + LastPerSwitch(b)
  {
    if b == [] {
      assert a + b == a;
    } else {
      LastPerSwitchAppend(a, b[..|b| - 1]);
      assert (a + b)[..|a + b| - 1] == a + b[..|b| - 1];
    }
  }

  /** The last record of each switch, with its position. */
  lemma {:induction false} LastPerSwitchIsLast(log: seq<TelemetryData>, id: string)
    ensures id in LastPerSwitch(log) <==> Logged(log, id)
    ensures id in LastPerSwitch(log) ==>
              exists i :: 0 <= i < |log| && log[i] == LastPerSwitch(log)[id] && log[i].switchId == id
                     && forall j :: i < j < |log| ==> log[j].switchId != id
  {
    if log != [] {
      var n := |log| - 1;
      LastPerSwitchIsLast(log[..n], id);
      assert log == log[..n] + [log[n]];
      if log[n].switchId == id {
        assert log[n] == LastPerSwitch(log)[id] && log[n] in log;
      }
    }
  }

  lemma StampedUnchanged(c: Entries, records: seq<TelemetryData>, now: Time)
    requires Stamped(records)
    ensures PutBatch(c, LastPerSwitch(records), now).data == c.data + LastPerSwitch(records)
  {
    forall id | id in LastPerSwitch(records)
      ensures id != "" && Stored(id, LastPerSwitch(records)[id], now) == LastPerSwitch(records)[id]
    {
      LastPerSwitchIsLast(records, id);
    }
  }

  /** The live cache holds the last record of every switch of the log. */
  lemma {:induction false} LiveCacheIsLast(calls: seq<BulkCall>)
    requires Stamped(BulkLog(calls))
    ensures LiveCache(calls).data == LastPerSwitch(BulkLog(calls))
  {
    if calls != [] {
      var n := |calls| - 1;
      var before, records := BulkLog(calls[..n]), calls[n].records;
      assert BulkLog(calls) == before + records;
      assert Stamped(before) && Stamped(records) by {
        assert forall x | x in before :: x in before + records;
        assert forall x | x in records :: x in before + records;
      }
      hide PutBatch, Stamped;
      LiveCacheIsLast(calls[..n]);
      LastPerSwitchAppend(before, records);
      StampedUnchanged(LiveCache(calls[..n]), records, calls[n].now);
    }
  }

  /** Within a switch, timestamps strictly increase in log order. */
  predicate Increasing(log: seq<TelemetryData>) {
    forall i, j :: 0 <= i < j < |log| && log[i].switchId == log[j].switchId ==> log[i].timestamp < log[j].timestamp
  }

  /** When timestamps increase, the last record of a switch is its only latest one. */
  lemma LastIsOnlyLatest(log: seq<TelemetryData>, id: string, record: TelemetryData)
    requires Increasing(log) && IsLatest(log, id, record)
    ensures id in LastPerSwitch(log) && LastPerSwitch(log)[id] == record
  {
    LastPerSwitchIsLast(log, id);
    var last := LastPerSwitch(log)[id];
    var i :| 0 <= i < |log| && log[i] == last && log[i].switchId == id
             && forall j :: i < j < |log| ==> log[j].switchId != id;
    var k :| 0 <= k < |log| && log[k] == record;
    assert log[i] in log;
    assert k >= i;
  }

  /** When timestamps increase, loading the log rebuilds the live cache. */
  lemma RecoveryIsExact(calls: seq<BulkCall>, loaded: Entries)
    requires Stamped(BulkLog(calls)) && Increasing(BulkLog(calls)) && LoadedFrom(BulkLog(calls), loaded)
    ensures loaded.data == LiveCache(calls).data
  {
    var log := BulkLog(calls);
    LiveCacheIsLast(calls);
    hide BulkLog, LiveCache, Stamped, Increasing, LoadedFrom, LastPerSwitch;
    forall id
      ensures id in loaded.data <==> id in LastPerSwitch(log)
      ensures id in loaded.data ==> loaded.data[id] == LastPerSwitch(log)[id]
    {
      LoadedIsLast(log, loaded, id);
    }
  }

  lemma LoadedIsLast(log: seq<TelemetryData>, loaded: Entries, id: string)
    requires Increasing(log) && LoadedFrom(log, loaded)
    ensures id in loaded.data <==> id in LastPerSwitch(log)
    ensures id in loaded.data ==> loaded.data[id] == LastPerSwitch(log)[id]
  {
    LastPerSwitchIsLast(log, id);
    if id in loaded.data {
      hide Increasing, IsLatest;
      LastIsOnlyLatest(log, id, loaded.data[id]);
    }
  }

  /** The record at `i` is the last one of its switch to arrive. */
  predicate ArrivesLast(log: seq<TelemetryData>, id: string, i: nat) {
    i < |log| && log[i].switchId == id && forall j :: i < j < |log| ==> log[j].switchId != id
  }

  /** No record of the switch that arrived before is newer. */
  predicate NoneNewerBefore(log: seq<TelemetryData>, i: nat)
    requires i < |log|
  {
    forall j :: 0 <= j < i && log[j].switchId == log[i].switchId ==> log[j].timestamp <= log[i].timestamp
  }

  /** In general the loaded record is at least as new as the live one, which is the
      last of its switch to arrive, and equally new exactly when no record of the
      switch that arrived before that one is newer. */
  lemma RecoveryIsNewer(calls: seq<BulkCall>, loaded: Entries, id: string)
    requires Stamped(BulkLog(calls)) && LoadedFrom(BulkLog(calls), loaded)
    ensures id in loaded.data <==> id in LiveCache(calls).data
    ensures id in loaded.data <==> exists i: nat :: ArrivesLast(BulkLog(calls), id, i)
    ensures forall i: nat | ArrivesLast(BulkLog(calls), id, i) ::
              && LiveCache(calls).data[id] == BulkLog(calls)[i]
              && loaded.data[id].timestamp >= BulkLog(calls)[i].timestamp
              && (loaded.data[id].timestamp == BulkLog(calls)[i].timestamp <==> NoneNewerBefore(BulkLog(calls), i))
  {
    var log := BulkLog(calls);
    LiveCacheIsLast(calls);
    LastArrives(log, id);
    LoadedAt(log, loaded, id);
    hide LiveCache, BulkLog, LastPerSwitch, Stamped, LoadedFrom, NoneNewerBefore, IsLatest;
    forall i: nat | ArrivesLast(log, id, i)
      ensures loaded.data[id].timestamp >= log[i].timestamp
      ensures loaded.data[id].timestamp == log[i].timestamp <==> NoneNewerBefore(log, i)
    {
      LatestIffNoneNewerBefore(log, id, i);
      LatestTimestamp(log, id, loaded.data[id], log[i]);
    }
  }

  /** The last record of a switch to arrive. */
  lemma LastArrives(log: seq<TelemetryData>, id: string)
    ensures id in LastPerSwitch(log) <==> Logged(log, id)
    ensures id in LastPerSwitch(log) <==> exists i: nat :: ArrivesLast(log, id, i)
    ensures forall i: nat | ArrivesLast(log, id, i) :: LastPerSwitch(log)[id] == log[i]
  {
    LastPerSwitchIsLast(log, id);
    hide LastPerSwitch;
    forall i: nat | ArrivesLast(log, id, i)
      ensures id in LastPerSwitch(log) && LastPerSwitch(log)[id] == log[i]
    {
      assert log[i] in log;
    }
    if id in LastPerSwitch(log) {
      var i: nat :| i < |log| && log[i] == LastPerSwitch(log)[id] && log[i].switchId == id
                    && forall j :: i < j < |log| ==> log[j].switchId != id;
      assert ArrivesLast(log, id, i);
    }
  }

  lemma LoadedAt(log: seq<TelemetryData>, loaded: Entries, id: string)
    requires LoadedFrom(log, loaded)
    ensures id in loaded.data <==> Logged(log, id)
    ensures id in loaded.data ==> IsLatest(log, id, loaded.data[id])
  {
  }

  lemma LatestTimestamp(log: seq<TelemetryData>, id: string, latest: TelemetryData, record: TelemetryData)
    requires IsLatest(log, id, latest) && record in log && record.switchId == id
    ensures latest.timestamp >= record.timestamp
    ensures latest.timestamp == record.timestamp <==> IsLatest(log, id, record)
  {
  }

  lemma LatestIffNoneNewerBefore(log: seq<TelemetryData>, id: string, i: nat)
    requires ArrivesLast(log, id, i)
    ensures log[i] in log && log[i].switchId == id
    ensures IsLatest(log, id, log[i]) <==> NoneNewerBefore(log, i)
  {
    if NoneNewerBefore(log, i) {
      forall x | x in log && x.switchId == id
        ensures x.timestamp <= log[i].timestamp
      {
        var j :| 0 <= j < |log| && log[j] == x;
        assert j <= i;
      }
    }
  }

  /** After one more call, the live record of a switch is a newest one exactly if the
      last record of the switch in the call, if it has one, is not older than any
      record of the switch before it in the call or in the log; a call without one
      changes nothing. */
  lemma LiveStaysNewest(calls: seq<BulkCall>, call: BulkCall, id: string)
    requires Stamped(BulkLog(calls + [call]))
    ensures BulkLog(calls + [call]) == BulkLog(calls) + call.records
    ensures forall i: nat | ArrivesLast(call.records, id, i) ::
              id in LiveCache(calls + [call]).data
              && (IsLatest(BulkLog(calls + [call]), id, LiveCache(calls + [call]).data[id])
                  <==> NoneNewerBefore(BulkLog(calls) + call.records, |BulkLog(calls)| + i))
    ensures !Logged(call.records, id) ==>
              && (id in LiveCache(calls + [call]).data <==> id in LiveCache(calls).data)
              && (id in LiveCache(calls).data ==>
                    (IsLatest(BulkLog(calls + [call]), id, LiveCache(calls + [call]).data[id])
                     <==> IsLatest(BulkLog(calls), id, LiveCache(calls).data[id])))
  {
    hide LiveCache, BulkLog, LastPerSwitch, Stamped, NoneNewerBefore, IsLatest;
    LoggedCall(calls, call);
    StampedPrefix(BulkLog(calls), call.records);
    LiveCacheIsLast(calls);
    LiveCacheIsLast(calls + [call]);
    LastStaysLatest(BulkLog(calls), call.records, id);
  }

  lemma LoggedCall(calls: seq<BulkCall>, call: BulkCall)
    ensures BulkLog(calls + [call]) == BulkLog(calls) + call.records
  {
    assert (calls + [call])[..|calls|] == calls;
  }

  lemma StampedPrefix(before: seq<TelemetryData>, records: seq<TelemetryData>)
    requires Stamped(before + records)
    ensures Stamped(before)
  {
    assert forall x | x in before :: x in before + records;
  }

  lemma LastStaysLatest(before: seq<TelemetryData>, records: seq<TelemetryData>, id: string)
    ensures forall i: nat | ArrivesLast(records, id, i) ::
              id in LastPerSwitch(before + records)
              && (IsLatest(before + records, id, LastPerSwitch(before + records)[id])
                  <==> NoneNewerBefore(before + records, |before| + i))
    ensures !Logged(records, id) ==>
              && (id in LastPerSwitch(before + records) <==> id in LastPerSwitch(before))
              && (id in LastPerSwitch(before) ==>
                    (IsLatest(before + records, id, LastPerSwitch(before + records)[id])
                     <==> IsLatest(before, id, LastPerSwitch(before)[id])))
  {
    var after := before + records;
    LastArrives(after, id);
    hide LastPerSwitch, NoneNewerBefore, IsLatest;
    forall i: nat | ArrivesLast(records, id, i)
      ensures id in LastPerSwitch(after)
      ensures IsLatest(after, id, LastPerSwitch(after)[id]) <==> NoneNewerBefore(after, |before| + i)
    {
      LastInWhole(before, records, id, i);
      LatestIffNoneNewerBefore(after, id, |before| + i);
    }
    if !Logged(records, id) {
      NotInCall(before, records, id);
    }
  }

  /** A call without a record of the switch. */
  lemma NotInCall(before: seq<TelemetryData>, records: seq<TelemetryData>, id: string)
    requires !Logged(records, id)
    ensures id in LastPerSwitch(before + records) <==> id in LastPerSwitch(before)
    ensures id in LastPerSwitch(before) ==> LastPerSwitch(before + records)[id] == LastPerSwitch(before)[id]
    ensures forall record :: IsLatest(before + records, id, record) <==> IsLatest(before, id, record)
  {
    LastPerSwitchAppend(before, records);
    LastPerSwitchIsLast(records, id);
    hide LastPerSwitch;
  }

  lemma LastInWhole(before: seq<TelemetryData>, records: seq<TelemetryData>, id: string, i: nat)
    requires ArrivesLast(records, id, i)
    ensures ArrivesLast(before + records, id, |before| + i)
  {
    var after := before + records;
    forall j | |before| + i < j < |after|
      ensures after[j].switchId != id
    {
      assert after[j] == records[j - |before|];
    }
  }

  /** The live cache is not the newest record in general: here it is the older one. */
  lemma LaterArrivalMayBeOlder(newer: TelemetryData, older: TelemetryData, now: Time)
    requires newer.switchId == older.switchId != "" && older.timestamp != ZERO_TIME
    requires older.timestamp < newer.timestamp && newer.timestamp != ZERO_TIME
    ensures LiveCache([BulkCall([newer, older], now)]).data == map[newer.switchId := older]
    ensures !IsLatest(BulkLog([BulkCall([newer, older], now)]), newer.switchId, older)
  {
    var calls := [BulkCall([newer, older], now)];
    assert calls[..0] == [];
    assert BulkLog(calls) == [newer, older];
    assert newer in BulkLog(calls);
    LiveCacheIsLast(calls);
    assert [newer, older][..1] == [newer] && [newer][..0] == [];
    var last := LastPerSwitch([newer, older]);
    assert LastPerSwitch([newer]) == map[newer.switchId := newer];
    assert last == map[newer.switchId := older];
  }
}
