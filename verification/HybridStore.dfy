/** The hybrid store, one call at a time: the cache in front of an append-only
    repository, and the writer with its retry loop. */
module HybridStore {
  import opened Models
  import opened Batches
  import opened Cache

  // ----- the repository, as the store assumes it -----

  /** Store calls are atomic and report truthfully whether they committed. */
  class Repository {
    var log: seq<TelemetryData>
    var switches: seq<string>

    constructor ()
      ensures log == [] && switches == []
    {
      log, switches := [], [];
    }

    /** Every record must name a registered switch. */
    ghost predicate References(metrics: seq<TelemetryData>)
      reads this`switches
    {
      forall m | m in metrics :: m.switchId in switches
    }

    method CreateSwitch(id: string, ok: bool)
      modifies this`switches
      ensures switches == if ok && id !in old(switches) then old(switches) + [id] else old(switches)
    {
      if ok && id !in switches {
        switches := switches + [id];
      }
    }

    method StoreMetrics(metrics: seq<TelemetryData>, ok: bool) returns (committed: bool)
      modifies this`log
      ensures committed <==> ok && References(metrics)
      ensures log == if committed then old(log) + metrics else old(log)
    {
      if !ok || exists m | m in metrics :: m.switchId !in switches {
        return false;
      }
      log := log + metrics;
      return true;
    }

    /** A record of the switch with the greatest timestamp, if there is one. */
    method GetLatestMetrics(id: string) returns (latest: Option<TelemetryData>)
      ensures latest.None? <==> !Logged(log, id)
      ensures latest.Some? ==> IsLatest(log, id, latest.value)
    {
      latest := None;
      for i := 0 to |log|
        invariant latest.None? <==> !Logged(log[..i], id)
        invariant latest.Some? ==> IsLatest(log[..i], id, latest.value)
      {
        assert log[..i + 1] == log[..i] + [log[i]];
        if log[i].switchId == id && (latest.None? || latest.value.timestamp < log[i].timestamp) {
          latest := Some(log[i]);
        }
      }
      assert log[..|log|] == log;
    }
  }

  // ----- the retry loop -----

  /** What happens around one writer call: whether the repository would accept
      attempt `k`, and the moment the context ends. Attempt `k` checks the context
      at moment `2k - 1` and backs off until moment `2k`. */
  datatype Env = Env(storeOk: nat -> bool, cancelledAt: Option<nat>)

  datatype WriteResult = Done | ContextCancelled | Failed

  predicate EndedBy(env: Env, moment: int) {
    env.cancelledAt.Some? && env.cancelledAt.value <= moment
  }

  /** Attempt `k` is the first the repository accepts. */
  ghost predicate FirstAccepted(ok: nat -> bool, k: nat) {
    1 <= k && ok(k) && forall j: nat :: 1 <= j < k ==> !ok(j)
  }

  /** The payload is committed: the first accepted attempt is allowed, and the
      context is still alive when it is made. */
  ghost predicate Commits(env: Env, ok: nat -> bool, maxRetries: int) {
    exists k: nat :: k <= maxRetries && FirstAccepted(ok, k) && !EndedBy(env, 2 * k - 1)
  }

  ghost function ResultOf(env: Env, ok: nat -> bool, maxRetries: int): WriteResult {
    if Commits(env, ok, maxRetries) then Done
    else if maxRetries >= 1 && EndedBy(env, 2 * maxRetries - 1) then ContextCancelled
    else Failed
  }

  /** Whether attempt `k` commits: the repository accepts it and every record names
      a registered switch. */
  function Accepted(env: Env, references: bool): nat -> bool {
    (k: nat) => env.storeOk(k) && references
  }

  lemma CommitsNow(env: Env, ok: nat -> bool, maxRetries: int, k: nat)
    requires 1 <= k <= maxRetries && !EndedBy(env, 2 * k - 1) && ok(k) && forall j: nat :: 1 <= j < k ==> !ok(j)
    ensures ResultOf(env, ok, maxRetries) == Done
  {
    assert FirstAccepted(ok, k);
  }

  /** The first accepted attempt is the first one the database would accept. */
  lemma FirstOfStore(env: Env, ok: nat -> bool, k: nat)
    requires ok == Accepted(env, true) && 1 <= k && ok(k) && forall j: nat :: 1 <= j < k ==> !ok(j)
    ensures FirstAccepted(env.storeOk, k)
  {
    assert forall j: nat :: ok(j) <==> env.storeOk(j);
  }

  lemma NeverCommits(env: Env, ok: nat -> bool, maxRetries: int, k: nat)
    requires forall j: nat :: 1 <= j < k ==> !ok(j)
    requires k > maxRetries || EndedBy(env, 2 * k - 1)
    ensures ResultOf(env, ok, maxRetries)
         == if maxRetries >= 1 && EndedBy(env, 2 * maxRetries - 1) then ContextCancelled else Failed
  {
    forall i: nat | i <= maxRetries && FirstAccepted(ok, i)
      ensures EndedBy(env, 2 * i - 1)
    {
      assert i >= k;
    }
  }

  /** What a write returns, read off what happens around it: `Done` exactly if every
      record names a registered switch and the first attempt the database accepts is
      one of the allowed ones and begins before the context ends; and, if not, a
      cancellation exactly if the context ends by the check of the last attempt. A
      context that has ended by the first check is a cancellation whatever the database
      would have said. */
  lemma WriteOutcome(env: Env, references: bool, maxRetries: int)
    ensures
      var r := ResultOf(env, Accepted(env, references), maxRetries);
      && (r.Done? <==>
            references
            && exists k: nat ::
                 && 1 <= k <= maxRetries && env.storeOk(k) && (forall j: nat | 1 <= j < k :: !env.storeOk(j))
                 && (env.cancelledAt.None? || 2 * k - 1 < env.cancelledAt.value))
      && (r.ContextCancelled? <==>
            !r.Done? && maxRetries >= 1 && env.cancelledAt.Some? && env.cancelledAt.value <= 2 * maxRetries - 1)
      && (maxRetries >= 1 && env.cancelledAt.Some? && env.cancelledAt.value <= 1 ==> r.ContextCancelled?)
  {
    var ok := Accepted(env, references);
    if references {
      forall k: nat
        ensures FirstAccepted(ok, k) <==>
                  1 <= k && env.storeOk(k) && forall j: nat | 1 <= j < k :: !env.storeOk(j)
      {
        assert forall j: nat :: ok(j) <==> env.storeOk(j);
      }
    }
  }

  /** A list of a keyed batch, in some order, each record under its key. */
  ghost predicate IsListing(batch: map<string, TelemetryData>, metrics: seq<TelemetryData>) {
    && |metrics| == |batch|
    && (forall m | m in metrics :: m.switchId in batch && m == batch[m.switchId].(switchId := m.switchId))
    && (forall id | id in batch :: batch[id].(switchId := id) in metrics)
  }

  class HybridStore {
    const maxRetries: int
    const cache: InMemoryCache
    const repository: Repository
    var flushQueue: seq<Batch>
    var totalRequests: nat
    var totalDBWrites: int
    var totalDBWriteErrors: nat
    var pendingFlushItems: int

    ghost predicate Valid()
      reads this, cache
    {
      cache.Valid() && |flushQueue| <= CAPACITY
    }

    constructor (maxRetries: int, cache: InMemoryCache, repository: Repository)
      requires cache.Valid()
      ensures Valid() && this.maxRetries == maxRetries && this.cache == cache && this.repository == repository
      ensures flushQueue == [] && totalDBWrites == 0 && pendingFlushItems == 0 && totalDBWriteErrors == 0
    {
      this.maxRetries, this.cache, this.repository := maxRetries, cache, repository;
      flushQueue, totalRequests, totalDBWrites, totalDBWriteErrors, pendingFlushItems := [], 0, 0, 0, 0;
    }

    /** Writes a payload, with retries; reports how many store calls were made and for
        how many seconds it backed off, the last time perhaps not to the end. */
    method WriteToDatabase(env: Env, metrics: seq<TelemetryData>)
      returns (r: WriteResult, calls: nat, slept: nat)
      modifies repository`log, this`totalDBWrites, this`pendingFlushItems, this`totalDBWriteErrors
      ensures
        r == if metrics == [] then Done else ResultOf(env, Accepted(env, repository.References(metrics)), maxRetries)
      ensures repository.log == old(repository.log) + if r.Done? then metrics else []
      ensures totalDBWrites == old(totalDBWrites) + if r.Done? then |metrics| else 0
      ensures pendingFlushItems == old(pendingFlushItems) - if r.Done? then |metrics| else 0
      ensures totalDBWriteErrors == old(totalDBWriteErrors) + if r.Failed? then 1 else 0
      ensures r.Done? ==> repository.References(metrics)
      ensures old(repository.References(repository.log)) ==> repository.References(repository.log)
      ensures calls <= (if maxRetries < 0 then 0 else maxRetries)
      ensures r.Done? && metrics != [] ==> FirstAccepted(env.storeOk, calls)
      ensures r.Failed? ==> calls == if maxRetries < 0 then 0 else maxRetries
      ensures r.ContextCancelled? ==> env.cancelledAt.Some? && calls == env.cancelledAt.value / 2
      ensures slept == Backoffs(if r.ContextCancelled? || calls == 0 then calls else calls - 1)
    {
      hide ResultOf, FirstAccepted;
      calls, slept := 0, 0;
      if |metrics| == 0 {
        return Done, 0, 0;
      }
      ghost var ok := Accepted(env, repository.References(metrics));
      var attempt := 1;
      while attempt <= maxRetries
        invariant 1 <= attempt && (attempt == 1 || attempt <= maxRetries + 1) && calls == attempt - 1
        invariant slept == Backoffs(if attempt > 1 && attempt > maxRetries then attempt - 2 else attempt - 1)
        invariant forall j: nat :: 1 <= j < attempt ==> !ok(j)
        invariant attempt > 1 && attempt <= maxRetries ==> !EndedBy(env, 2 * (attempt - 1))
        invariant attempt > 1 && attempt > maxRetries ==> !EndedBy(env, 2 * maxRetries - 1)
        invariant repository.log == old(repository.log) && totalDBWriteErrors == old(totalDBWriteErrors)
        invariant totalDBWrites == old(totalDBWrites) && pendingFlushItems == old(pendingFlushItems)
      {
        if EndedBy(env, 2 * attempt - 1) {
          NeverCommits(env, ok, maxRetries, attempt);
          return ContextCancelled, calls, slept;
        }
        var committed := repository.StoreMetrics(metrics, env.storeOk(attempt));
        calls := calls + 1;
        assert committed <==> ok(attempt);
        if committed {
          FirstOfStore(env, ok, attempt);
          CommitsNow(env, ok, maxRetries, attempt);
          totalDBWrites := totalDBWrites + |metrics|;
          pendingFlushItems := pendingFlushItems - |metrics|;
          return Done, calls, slept;
        }
        if attempt < maxRetries {
          slept := slept + attempt;
          if EndedBy(env, 2 * attempt) {
            NeverCommits(env, ok, maxRetries, attempt + 1);
            return ContextCancelled, calls, slept;
          }
        }
        attempt := attempt + 1;
      }
      NeverCommits(env, ok, maxRetries, attempt);
      totalDBWriteErrors := totalDBWriteErrors + 1;
      return Failed, calls, slept;
    }

    method UpdateMetrics(switchId: string, data: TelemetryData, fallback: Time, now: Time) returns (ok: bool)
      requires Valid()
      modifies this`flushQueue, this`pendingFlushItems, this`totalRequests, cache
      ensures Valid()
      ensures ok <==> switchId != ""
      ensures cache.Contents() == Put(old(cache.Contents()), switchId, data, fallback, now)
      ensures flushQueue == old(flushQueue) + if ok && |old(flushQueue)| < CAPACITY then [[data]] else []
      ensures pendingFlushItems == old(pendingFlushItems) + if ok && |old(flushQueue)| < CAPACITY then 1 else 0
      ensures totalRequests == old(totalRequests) + if ok then 1 else 0
    {
      ok := cache.UpdateMetrics(switchId, data, fallback, now);
      if !ok {
        return;
      }
      if |flushQueue| < CAPACITY {
        flushQueue := flushQueue + [[data]];
        pendingFlushItems := pendingFlushItems + 1;
      }
      totalRequests := totalRequests + 1;
    }

    /** The batch is listed for the database in no particular order. */
    method UpdateBatch(batch: map<string, TelemetryData>, now: Time)
      requires Valid()
      modifies this`flushQueue, this`pendingFlushItems, this`totalRequests, cache
      ensures Valid() && totalRequests == old(totalRequests) + 1
      ensures cache.Contents() == PutBatch(old(cache.Contents()), batch, now)
      ensures
        if batch != map[] && |old(flushQueue)| < CAPACITY then
          && |flushQueue| == |old(flushQueue)| + 1 && flushQueue[..|old(flushQueue)|] == old(flushQueue)
          && IsListing(batch, flushQueue[|old(flushQueue)|])
          && pendingFlushItems == old(pendingFlushItems) + |batch|
        else
          flushQueue == old(flushQueue) && pendingFlushItems == old(pendingFlushItems)
    {
      hide PutBatch;
      cache.UpdateBatch(batch, now);
      var metrics := ListBatch(batch);
      hide IsListing;
      if |metrics| > 0 && |flushQueue| < CAPACITY {
        flushQueue := flushQueue + [metrics];
        pendingFlushItems := pendingFlushItems + |metrics|;
      }
      totalRequests := totalRequests + 1;
    }

    /** Stores every record, without deduplication: the cache gets the last record of
        each switch, the database gets them all. */
    method StoreMetricsBulk(env: Env, metrics: seq<TelemetryData>, now: Time) returns (r: WriteResult)
      requires Valid()
      modifies this`totalDBWrites, this`pendingFlushItems, this`totalDBWriteErrors, cache, repository`log
      ensures Valid()
      ensures cache.Contents() == PutEach(old(cache.Contents()), metrics, now)
      ensures
        r == if metrics == [] then Done else ResultOf(env, Accepted(env, repository.References(metrics)), maxRetries)
      ensures repository.log == old(repository.log) + if r.Done? then metrics else []
      ensures totalDBWrites == old(totalDBWrites) + if r.Done? then |metrics| else 0
      ensures pendingFlushItems == old(pendingFlushItems) - if r.Done? then |metrics| else 0
      ensures totalDBWriteErrors == old(totalDBWriteErrors) + if r.Failed? then 1 else 0
      ensures old(repository.References(repository.log)) ==> repository.References(repository.log)
    {
      if |metrics| == 0 {
        return Done;
      }
      var cacheData := map[];
      for i := 0 to |metrics|
        invariant cacheData == LastPerSwitch(metrics[..i])
      {
        assert metrics[..i + 1][..i] == metrics[..i];
        cacheData := cacheData[metrics[i].switchId := metrics[i]];
      }
      assert metrics[..|metrics|] == metrics;
      BulkIsSequential(cache.Contents(), metrics, now);
      cache.UpdateBatch(cacheData, now);
      var calls, slept;
      r, calls, slept := WriteToDatabase(env, metrics);
    }

    /** Takes everything out of the channel and writes it in one call. */
    method FlushToDatabase(env: Env) returns (r: WriteResult)
      requires Valid()
      modifies this`flushQueue, this`totalDBWrites, this`pendingFlushItems, this`totalDBWriteErrors, repository`log
      ensures Valid() && flushQueue == []
      ensures
        var metrics := Concat(old(flushQueue));
        && r == (if metrics == [] then Done
                 else ResultOf(env, Accepted(env, repository.References(metrics)), maxRetries))
        && repository.log == old(repository.log) + (if r.Done? then metrics else [])
        && totalDBWrites == old(totalDBWrites) + (if r.Done? then |metrics| else 0)
        && pendingFlushItems == old(pendingFlushItems) - (if r.Done? then |metrics| else 0)
        && totalDBWriteErrors == old(totalDBWriteErrors) + (if r.Failed? then 1 else 0)
      ensures old(repository.References(repository.log)) ==> repository.References(repository.log)
    {
      var all := [];
      ghost var before := flushQueue;
      while flushQueue != []
        invariant |flushQueue| <= |before| && cache.Valid()
        invariant repository.log == old(repository.log) && pendingFlushItems == old(pendingFlushItems)
        invariant totalDBWrites == old(totalDBWrites) && totalDBWriteErrors == old(totalDBWriteErrors)
        invariant all + Concat(flushQueue) == Concat(before)
        decreases |flushQueue|
      {
        var metrics := flushQueue[0];
        ConcatFirst(flushQueue);
        flushQueue := flushQueue[1..];
        assert all + (metrics + Concat(flushQueue)) == all + metrics + Concat(flushQueue);
        all := all + metrics;
      }
      if |all| == 0 {
        return Done;
      }
      var calls, slept;
      r, calls, slept := WriteToDatabase(env, all);
    }

    /** Reloads a latest record of every registered switch; a switch whose read fails
        or finds nothing keeps the entry it had. */
    method LoadFromDatabase(listOk: bool, readOk: nat -> bool, fallback: Time, now: Time) returns (ok: bool)
      requires Valid()
      modifies cache
      ensures Valid() && ok == listOk
      ensures !listOk ==> cache.Contents() == old(cache.Contents())
      ensures listOk ==>
                Loaded(repository.log, repository.switches, readOk, fallback, old(cache.data), cache.data)
      ensures listOk && (forall i :: readOk(i)) && old(cache.data) == map[]
              && Stamped(repository.log) && repository.References(repository.log)
              ==> LoadedFrom(repository.log, cache.Contents())
    {
      if !listOk {
        return false;
      }
      var switches := repository.switches;
      ghost var before := cache.data;
      assert Loaded(repository.log, [], readOk, fallback, before, before);
      hide Loaded;
      for i := 0 to |switches|
        invariant Valid()
        invariant Loaded(repository.log, switches[..i], readOk, fallback, before, cache.data)
      {
        ghost var prior := cache.data;
        if !readOk(i) {
          LoadSkipped(repository.log, switches, i, readOk, fallback, before, prior);
          continue;
        }
        var latest := repository.GetLatestMetrics(switches[i]);
        if latest.None? {
          LoadSkipped(repository.log, switches, i, readOk, fallback, before, prior);
          continue;
        }
        var updated := cache.UpdateMetrics(switches[i], latest.value, fallback, now);
        LoadedOneMore(repository.log, switches, i, readOk, fallback, before, prior, latest.value);
      }
      assert switches[..|switches|] == switches;
      LoadComplete(repository.log, switches, readOk, fallback, before, cache.Contents());
      return true;
    }
  }

  /** Some read of the switch succeeded. */
  ghost predicate WasRead(switches: seq<string>, readOk: nat -> bool, id: string) {
    exists i: nat :: i < |switches| && switches[i] == id && readOk(i)
  }

  /** The entry of a switch that was read is a latest record of the log, if the log has
      one; every other entry is as it was. */
  ghost predicate EntryAfterLoad(
    log: seq<TelemetryData>, read: bool, id: string, fallback: Time,
    before: map<string, TelemetryData>, after: map<string, TelemetryData>)
  {
    if read && id != "" && Logged(log, id)
    then id in after && exists r :: IsLatest(log, id, r) && after[id] == Stored(id, r, fallback)
    else (id in after <==> id in before) && (id in after ==> after[id] == before[id])
  }

  lemma WasReadStep(switches: seq<string>, readOk: nat -> bool, i: nat)
    requires i < |switches|
    ensures forall id :: WasRead(switches[..i + 1], readOk, id) <==>
                           WasRead(switches[..i], readOk, id) || (id == switches[i] && readOk(i))
  {
    forall id
      ensures WasRead(switches[..i + 1], readOk, id) <==>
                WasRead(switches[..i], readOk, id) || (id == switches[i] && readOk(i))
    {
      if WasRead(switches[..i], readOk, id) {
        var k: nat :| k < i && switches[..i][k] == id && readOk(k);
        assert switches[..i + 1][k] == id;
      }
      if id == switches[i] && readOk(i) {
        assert switches[..i + 1][i] == id;
      }
      if WasRead(switches[..i + 1], readOk, id) {
        var k: nat :| k < i + 1 && switches[..i + 1][k] == id && readOk(k);
        assert k < i ==> switches[..i][k] == id;
      }
    }
  }

  ghost predicate Loaded(
    log: seq<TelemetryData>, switches: seq<string>, readOk: nat -> bool, fallback: Time,
    before: map<string, TelemetryData>, after: map<string, TelemetryData>)
  {
    forall id :: EntryAfterLoad(log, WasRead(switches, readOk, id), id, fallback, before, after)
  }

  lemma LoadSkipped(
    log: seq<TelemetryData>, switches: seq<string>, i: nat, readOk: nat -> bool, fallback: Time,
    before: map<string, TelemetryData>, after: map<string, TelemetryData>)
    requires i < |switches| && (!readOk(i) || !Logged(log, switches[i]))
    requires Loaded(log, switches[..i], readOk, fallback, before, after)
    ensures Loaded(log, switches[..i + 1], readOk, fallback, before, after)
  {
    WasReadStep(switches, readOk, i);
    hide WasRead, IsLatest, Logged;
    var seen := switches[..i + 1];
    forall id
      ensures EntryAfterLoad(log, WasRead(seen, readOk, id), id, fallback, before, after)
    {
      assert EntryAfterLoad(log, WasRead(switches[..i], readOk, id), id, fallback, before, after);
    }
  }

  lemma LoadedOneMore(
    log: seq<TelemetryData>, switches: seq<string>, i: nat, readOk: nat -> bool, fallback: Time,
    before: map<string, TelemetryData>, prior: map<string, TelemetryData>, r: TelemetryData)
    requires i < |switches| && readOk(i) && Logged(log, switches[i]) && IsLatest(log, switches[i], r)
    requires Loaded(log, switches[..i], readOk, fallback, before, prior)
    ensures
      var id := switches[i];
      Loaded(log, switches[..i + 1], readOk, fallback, before,
             if id == "" then prior else prior[id := Stored(id, r, fallback)])
  {
    WasReadStep(switches, readOk, i);
    hide WasRead, IsLatest, Logged, Stored;
    var seen := switches[..i + 1];
    var after := if switches[i] == "" then prior else prior[switches[i] := Stored(switches[i], r, fallback)];
    forall id
      ensures EntryAfterLoad(log, WasRead(seen, readOk, id), id, fallback, before, after)
    {
      assert EntryAfterLoad(log, WasRead(switches[..i], readOk, id), id, fallback, before, prior);
    }
  }

  /** If every read succeeded, an empty cache is rebuilt. */
  lemma LoadComplete(
    log: seq<TelemetryData>, switches: seq<string>, readOk: nat -> bool, fallback: Time,
    before: map<string, TelemetryData>, c: Entries)
    requires Loaded(log, switches, readOk, fallback, before, c.data)
    ensures && (forall i :: readOk(i)) && before == map[]
            && Stamped(log) && (forall m | m in log :: m.switchId in switches)
            ==> LoadedFrom(log, c)
  {
    if (forall i :: readOk(i)) && before == map[] && Stamped(log) && (forall m | m in log :: m.switchId in switches) {
      forall id
        ensures id in c.data <==> Logged(log, id)
        ensures id in c.data ==> IsLatest(log, id, c.data[id])
      {
        assert EntryAfterLoad(log, WasRead(switches, readOk, id), id, fallback, before, c.data);
        if Logged(log, id) {
          var m :| m in log && m.switchId == id;
          var i: nat :| i < |switches| && switches[i] == id;
          assert readOk(i);
        }
      }
    }
  }

  /** Seconds of backoff after the first `n` failed attempts. */
  function Backoffs(n: nat): nat {
    if n == 0 then 0 else Backoffs(n - 1) + n
  }

  lemma {:induction false} BackoffsTotal(n: nat)
    ensures 2 * Backoffs(n) == n * (n + 1)
  {
    if n > 0 {
      BackoffsTotal(n - 1);
    }
  }

  method ListBatch(batch: map<string, TelemetryData>) returns (metrics: seq<TelemetryData>)
    ensures IsListing(batch, metrics)
  {
    metrics := [];
    var todo := batch.Keys;
    while todo != {}
      invariant todo <= batch.Keys && |metrics| + |todo| == |batch|
      invariant forall m | m in metrics :: m.switchId in batch && m == batch[m.switchId].(switchId := m.switchId)
      invariant forall id | id in batch && id !in todo :: batch[id].(switchId := id) in metrics
    {
      var id :| id in todo;
      todo := todo - {id};
      metrics := metrics + [batch[id].(switchId := id)];
    }
  }
}
