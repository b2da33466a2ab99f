/** The polling client: it fetches a document, skips what it has already ingested,
    registers the switches it finds and ingests the records. */
module Client {
  import opened Models
  import opened Csv
  import opened Cache
  import opened HybridStore
  import opened Service

  // ----- deduplication -----

  /** The header's timestamp, or the zero instant if it is missing or malformed. */
  function ParseTimestamp(codec: TimeCodec, header: string): Time {
    if header == "" then ZERO_TIME
    else
      match codec.parse(header)
      case None => ZERO_TIME
      case Some(t) => t
  }

  /** The header's timestamp, or else that of the first data row. */
  function DataTimestamp(codec: TimeCodec, reply: Response): Time {
    var header := ParseTimestamp(codec, reply.dataTimestamp);
    if header == ZERO_TIME && reply.body != "" then ExtractFirstTimestamp(codec, reply.body) else header
  }

  predicate IsDuplicate(lastId: string, lastTime: Time, id: string, time: Time) {
    (id != "" && id == lastId) || (time != ZERO_TIME && time <= lastTime)
  }

  // ----- registration -----

  /** The switches of a batch, each once, in the order of first appearance. */
  function DistinctIds(data: seq<TelemetryData>): seq<string> {
    if data == [] then []
    else
      var front := DistinctIds(data[..|data| - 1]);
      var id := data[|data| - 1].switchId;
      if id == "" || id in front then front else front + [id]
  }

  /** The position of the first record of a switch. */
  function FirstOf(data: seq<TelemetryData>, id: string): (i: nat)
    ensures i <= |data|
    ensures forall k :: 0 <= k < i ==> data[k].switchId != id
    ensures i < |data| ==> data[i].switchId == id
  {
    if data == [] || data[0].switchId == id then 0 else 1 + FirstOf(data[1..], id)
  }

  lemma {:induction false} DistinctIdsMembers(data: seq<TelemetryData>)
    ensures forall id :: id in DistinctIds(data) <==> id != "" && FirstOf(data, id) < |data|
  {
    if data != [] {
      var n := |data| - 1;
      var front, last := data[..n], data[n];
      DistinctIdsMembers(front);
      assert data == front + [last];
      forall id
        ensures FirstOf(data, id) < |data| <==> FirstOf(front, id) < n || id == last.switchId
      {
        FirstOfPrefix(front, last, id);
      }
    }
  }

  lemma {:induction false} DistinctIdsAscending(data: seq<TelemetryData>)
    ensures forall i, k :: 0 <= i < k < |DistinctIds(data)| ==>
              FirstOf(data, DistinctIds(data)[i]) < FirstOf(data, DistinctIds(data)[k])
  {
    if data != [] {
      var n := |data| - 1;
      var front, last := data[..n], data[n];
      DistinctIdsAscending(front);
      DistinctIdsMembers(front);
      assert data == front + [last];
      var before := DistinctIds(front);
      forall i | 0 <= i < |before|
        ensures FirstOf(data, before[i]) == FirstOf(front, before[i]) < n
      {
        assert before[i] in before;
        FirstOfPrefix(front, last, before[i]);
      }
      if last.switchId != "" && last.switchId !in before {
        FirstOfPrefix(front, last, last.switchId);
        hide FirstOf;
      }
    }
  }

  /** Exactly the named switches, without repetition, in order of first appearance. */
  lemma DistinctIdsOrder(data: seq<TelemetryData>)
    ensures forall id :: id in DistinctIds(data) <==> id != "" && exists m :: m in data && m.switchId == id
    ensures forall i, k :: 0 <= i < k < |DistinctIds(data)| ==>
              FirstOf(data, DistinctIds(data)[i]) < FirstOf(data, DistinctIds(data)[k])
  {
    DistinctIdsAscending(data);
    DistinctIdsMembers(data);
    forall id
      ensures FirstOf(data, id) < |data| <==> exists m :: m in data && m.switchId == id
    {
      if FirstOf(data, id) < |data| {
        assert data[FirstOf(data, id)] in data;
      }
    }
  }

  lemma FirstOfPrefix(front: seq<TelemetryData>, last: TelemetryData, id: string)
    ensures FirstOf(front + [last], id)
         == if FirstOf(front, id) < |front| then FirstOf(front, id)
            else if last.switchId == id then |front| else |front| + 1
  {
    var data := front + [last];
    var i, k := FirstOf(front, id), FirstOf(data, id);
    assert forall n :: 0 <= n < |front| ==> data[n] == front[n];
    assert data[|front|] == last;
    if i < |front| {
      assert data[i].switchId == id;
    }
  }

  /** Registering these switches covers every record that is ingested. */
  lemma {:induction false} RegistrationCovers(data: seq<TelemetryData>)
    ensures forall m | m in ValidRecords(data) :: m.switchId in DistinctIds(data)
    ensures forall id | id in DistinctIds(data) :: exists m :: m in ValidRecords(data) && m.switchId == id
    ensures ValidRecords(data) == [] <==> DistinctIds(data) == []
  {
    DistinctIdsOrder(data);
    ValidRecordsKept(data);
    forall id | id in DistinctIds(data)
      ensures exists m :: m in ValidRecords(data) && m.switchId == id
    {
      var m :| m in data && m.switchId == id;
      assert m in ValidRecords(data);
    }
    if ValidRecords(data) != [] {
      assert ValidRecords(data)[0] in ValidRecords(data);
    }
    if DistinctIds(data) != [] {
      assert DistinctIds(data)[0] in DistinctIds(data);
    }
  }

  // ----- one poll -----

  datatype Fetch = FetchFailed | Fetched(reply: Response)

  datatype Counts = Counts(total: nat, successful: nat, duplicate: nat, errors: nat)

  /** What a poll remembers of its outcome. */
  datatype PollOutcome = PollFailed | PollSkipped | PollSucceeded(id: string, time: Time)

  datatype Memory = Memory(lastId: string, lastTime: Time, counts: Counts)

  const FRESH: Memory := Memory("", ZERO_TIME, Counts(0, 0, 0, 0))

  /** The client's memory when a poll that started with `m` ends. */
  function Settle(m: Memory, outcome: PollOutcome): Memory {
    var c := m.counts;
    match outcome
    case PollFailed => m.(counts := c.(errors := c.errors + 1))
    case PollSkipped => m.(counts := c.(duplicate := c.duplicate + 1))
    case PollSucceeded(id, time) => Memory(id, time, c.(successful := c.successful + 1))
  }

  function Begin(m: Memory): Memory {
    m.(counts := m.counts.(total := m.counts.total + 1))
  }

  /** What a reply leads to before the store is asked: skip it, refuse it, or
      ingest its records. */
  datatype Decision = Skip | Refuse | Ingest(data: seq<TelemetryData>)

  function Decide(codec: TimeCodec, m: Memory, reply: Response): Decision {
    if IsDuplicate(m.lastId, m.lastTime, reply.generationId, DataTimestamp(codec, reply)) then Skip
    else
      match ParsedDocument(codec, reply.body)
      case Err(_) => Refuse
      case Ok(data) => Ingest(data)
  }

  /** How a poll that got a reply can end: skipped exactly if the reply is a
      duplicate, and successful only after an ingestion, remembering the reply. A
      document without rows is a success, one without a named record an error. */
  predicate Follows(codec: TimeCodec, m: Memory, reply: Response, outcome: PollOutcome) {
    match Decide(codec, m, reply)
    case Skip => outcome.PollSkipped?
    case Refuse => outcome.PollFailed?
    case Ingest(data) =>
      && (outcome == PollFailed || outcome == PollSucceeded(reply.generationId, DataTimestamp(codec, reply)))
      && (data == [] ==> outcome.PollSucceeded?)
      && (data != [] && ValidRecords(data) == [] ==> outcome.PollFailed?)
  }

  /** How a poll of a client with this memory can end. */
  predicate IsPoll(codec: TimeCodec, m: Memory, fetch: Fetch, outcome: PollOutcome) {
    match fetch
    case FetchFailed => outcome.PollFailed?
    case Fetched(reply) => Follows(codec, m, reply, outcome)
  }

  class GeneratorClient {
    const service: TelemetryService
    var lastGenerationId: string
    var lastDataTimestamp: Time
    var totalPolls: nat
    var successfulPolls: nat
    var duplicateSkips: nat
    var errorCount: nat

    ghost function Recall(): Memory
      reads this
    {
      Memory(lastGenerationId, lastDataTimestamp, Counts(totalPolls, successfulPolls, duplicateSkips, errorCount))
    }

    constructor (service: TelemetryService)
      ensures this.service == service && Recall() == FRESH
    {
      this.service := service;
      lastGenerationId, lastDataTimestamp := "", ZERO_TIME;
      totalPolls, successfulPolls, duplicateSkips, errorCount := 0, 0, 0, 0;
    }

    /** Registers each switch once; a failed registration is only logged. */
    method RegisterSwitches(data: seq<TelemetryData>, registerOk: nat -> bool) returns (asked: seq<string>)
      modifies service.store.repository`switches
      ensures asked == DistinctIds(data)
      ensures (forall i :: registerOk(i)) ==> service.store.repository.References(ValidRecords(data))
      ensures (forall i :: registerOk(i)) ==>
                forall id :: id in service.store.repository.switches
                             <==> id in old(service.store.repository.switches) || id in asked
    {
      var seen: set<string> := {};
      asked := [];
      for i := 0 to |data|
        invariant asked == DistinctIds(data[..i])
        invariant forall id :: id in seen <==> id in asked
        invariant (forall k :: registerOk(k)) ==>
                    forall id :: id in service.store.repository.switches
                                 <==> id in old(service.store.repository.switches) || id in asked
      {
        assert data[..i + 1][..i] == data[..i];
        var id := data[i].switchId;
        if id == "" || id in seen {
          continue;
        }
        seen := seen + {id};
        asked := asked + [id];
        var registered := service.RegisterSwitch(id, registerOk(i));
      }
      assert data[..|data|] == data;
      RegistrationCovers(data);
    }

    /** One poll; the fetch has already been tried. */
    method PollAndIngest(codec: TimeCodec, fetch: Fetch, registerOk: nat -> bool, env: Env, now: Time)
      returns (outcome: PollOutcome)
      requires service.store.Valid()
      modifies this, service.store`totalDBWrites, service.store`pendingFlushItems, service.store`totalDBWriteErrors
      modifies service.store.cache, service.store.repository
      ensures service.store.Valid()
      ensures Recall() == Settle(Begin(old(Recall())), outcome)
      ensures IsPoll(codec, old(Recall()), fetch, outcome)
      ensures
        fetch.Fetched? && Decide(codec, old(Recall()), fetch.reply).Ingest? && (forall i :: registerOk(i)) ==>
          var data := Decide(codec, old(Recall()), fetch.reply).data;
          outcome.PollSucceeded? <==>
            data == []
            || (ValidRecords(data) != [] && ResultOf(env, Accepted(env, true), service.store.maxRetries).Done?)
      ensures service.store.repository.log
           == old(service.store.repository.log)
            + if outcome.PollSucceeded?
              then ValidRecords(Decide(codec, old(Recall()), fetch.reply).data)
              else []
      ensures service.store.cache.Contents()
           == if fetch.Fetched? && Decide(codec, old(Recall()), fetch.reply).Ingest?
              then PutEach(old(service.store.cache.Contents()),
                           ValidRecords(Decide(codec, old(Recall()), fetch.reply).data), now)
              else old(service.store.cache.Contents())
    {
      totalPolls := totalPolls + 1;
      hide Decide, Consistent, ResultOf, ValidRecords;
      outcome := FetchAndProcessData(codec, fetch, registerOk, env, now);
    }

    /** Deduplicate, parse, register, ingest, remember. */
    method FetchAndProcessData(codec: TimeCodec, fetch: Fetch, registerOk: nat -> bool, env: Env, now: Time)
      returns (outcome: PollOutcome)
      requires service.store.Valid()
      modifies this, service.store`totalDBWrites, service.store`pendingFlushItems, service.store`totalDBWriteErrors
      modifies service.store.cache, service.store.repository
      ensures service.store.Valid()
      ensures Recall() == Settle(old(Recall()), outcome)
      ensures IsPoll(codec, old(Recall()), fetch, outcome)
      ensures
        fetch.Fetched? && Decide(codec, old(Recall()), fetch.reply).Ingest? && (forall i :: registerOk(i)) ==>
          var data := Decide(codec, old(Recall()), fetch.reply).data;
          outcome.PollSucceeded? <==>
            data == []
            || (ValidRecords(data) != [] && ResultOf(env, Accepted(env, true), service.store.maxRetries).Done?)
      ensures service.store.repository.log
           == old(service.store.repository.log)
            + if outcome.PollSucceeded?
              then ValidRecords(Decide(codec, old(Recall()), fetch.reply).data)
              else []
      ensures service.store.cache.Contents()
           == if fetch.Fetched? && Decide(codec, old(Recall()), fetch.reply).Ingest?
              then PutEach(old(service.store.cache.Contents()),
                           ValidRecords(Decide(codec, old(Recall()), fetch.reply).data), now)
              else old(service.store.cache.Contents())
    {
      hide ParsedDocument, ExtractFirstTimestamp, PutEach, ResultOf, ValidRecords, DistinctIds, Consistent;
      hide Repository.References;
      if fetch.FetchFailed? {
        errorCount := errorCount + 1;
        return PollFailed;
      }
      var id := fetch.reply.generationId;
      var time := ParseTimestamp(codec, fetch.reply.dataTimestamp);
      if time == ZERO_TIME && |fetch.reply.body| > 0 {
        time := ExtractFirstTimestamp(codec, fetch.reply.body);
      }
      if IsDuplicate(lastGenerationId, lastDataTimestamp, id, time) {
        duplicateSkips := duplicateSkips + 1;
        return PollSkipped;
      }
      var parsed := ParseDocument(codec, fetch.reply.body);
      if parsed.Err? {
        errorCount := errorCount + 1;
        return PollFailed;
      }
      var asked := RegisterSwitches(parsed.value, registerOk);
      var ingested := service.IngestBatch(env, parsed.value, now);
      if ingested.Err? {
        errorCount := errorCount + 1;
        return PollFailed;
      }
      lastGenerationId := id;
      lastDataTimestamp := time;
      successfulPolls := successfulPolls + 1;
      return PollSucceeded(id, time);
    }
  }

  // ----- every run of polls -----

  /** One poll of the worker: what was fetched, and how it ended. */
  datatype Poll = Poll(fetch: Fetch, outcome: PollOutcome)

  /** The memory after a sequence of polls. */
  function AfterPolls(polls: seq<Poll>): Memory {
    if polls == [] then FRESH
    else Settle(Begin(AfterPolls(polls[..|polls| - 1])), polls[|polls| - 1].outcome)
  }

  /** Every poll ended in a way its fetch allows, given what the polls before it left. */
  predicate IsPollRun(codec: TimeCodec, polls: seq<Poll>) {
    forall i :: 0 <= i < |polls| ==> IsPoll(codec, AfterPolls(polls[..i]), polls[i].fetch, polls[i].outcome)
  }

  /** Ways in which a poll can end. */
  datatype Ending = Errored | Skipped | Succeeded

  function EndingOf(outcome: PollOutcome): Ending {
    match outcome
    case PollFailed => Errored
    case PollSkipped => Skipped
    case PollSucceeded(_, _) => Succeeded
  }

  /** How many of the polls ended this way. */
  function Tally(polls: seq<Poll>, ending: Ending): nat {
    if polls == [] then 0
    else Tally(polls[..|polls| - 1], ending) + if EndingOf(polls[|polls| - 1].outcome) == ending then 1 else 0
  }

  /** In every run each counter is the number of polls that ended its way, and the polls
      begun are the successes, the skips and the errors. */
  lemma {:induction false} PollsBalance(polls: seq<Poll>)
    ensures
      var c := AfterPolls(polls).counts;
      && c.total == |polls| == c.successful + c.duplicate + c.errors
      && c.errors == Tally(polls, Errored) && c.duplicate == Tally(polls, Skipped)
      && c.successful == Tally(polls, Succeeded)
  {
    if polls != [] {
      PollsBalance(polls[..|polls| - 1]);
    }
  }

  /** The last success decides what is remembered. */
  lemma {:induction false} RemembersLastSuccess(polls: seq<Poll>, i: nat)
    requires i < |polls| && polls[i].outcome.PollSucceeded?
    requires forall k :: i < k < |polls| ==> !polls[k].outcome.PollSucceeded?
    ensures AfterPolls(polls).lastId == polls[i].outcome.id && AfterPolls(polls).lastTime == polls[i].outcome.time
  {
    var n := |polls| - 1;
    if i < n {
      assert !polls[n].outcome.PollSucceeded?;
      RemembersLastSuccess(polls[..n], i);
    }
  }

  /** A poll that succeeds carried no timestamp, or a newer one than the last success,
      and another generation. */
  lemma SuccessIsNewer(codec: TimeCodec, m: Memory, fetch: Fetch, id: string, time: Time)
    requires IsPoll(codec, m, fetch, PollSucceeded(id, time))
    ensures time == ZERO_TIME || m.lastTime < time
    ensures id == "" || id != m.lastId
  {
    hide DataTimestamp, ParsedDocument;
  }

  /** In every run, whatever was fetched, of two consecutive successes the later reply
      carried no timestamp or a strictly newer one, and never the same generation. */
  lemma ConsecutiveSuccesses(codec: TimeCodec, polls: seq<Poll>, i: nat, j: nat)
    requires IsPollRun(codec, polls) && i < j < |polls|
    requires polls[i].outcome.PollSucceeded? && polls[j].outcome.PollSucceeded?
    requires forall k :: i < k < j ==> !polls[k].outcome.PollSucceeded?
    ensures polls[i].fetch.Fetched? && polls[j].fetch.Fetched?
    ensures
      var first, second := polls[i].fetch.reply, polls[j].fetch.reply;
      && (DataTimestamp(codec, second) == ZERO_TIME || DataTimestamp(codec, first) < DataTimestamp(codec, second))
      && (second.generationId == "" || second.generationId != first.generationId)
  {
    SuccessRemembersReply(codec, polls, i);
    SuccessRemembersReply(codec, polls, j);
    hide IsPoll, IsPollRun, DataTimestamp;
    RemembersLastSuccess(polls[..j], i);
    assert IsPoll(codec, AfterPolls(polls[..j]), polls[j].fetch, polls[j].outcome) by { PollOfRun(codec, polls, j); }
    SuccessIsNewer(codec, AfterPolls(polls[..j]), polls[j].fetch, polls[j].outcome.id, polls[j].outcome.time);
  }

  lemma PollOfRun(codec: TimeCodec, polls: seq<Poll>, i: nat)
    requires IsPollRun(codec, polls) && i < |polls|
    ensures IsPoll(codec, AfterPolls(polls[..i]), polls[i].fetch, polls[i].outcome)
  {
    hide IsPoll, AfterPolls;
  }

  lemma SuccessRemembersReply(codec: TimeCodec, polls: seq<Poll>, i: nat)
    requires IsPollRun(codec, polls) && i < |polls| && polls[i].outcome.PollSucceeded?
    ensures polls[i].fetch.Fetched?
    ensures polls[i].outcome
         == PollSucceeded(polls[i].fetch.reply.generationId, DataTimestamp(codec, polls[i].fetch.reply))
  {
    PollOfRun(codec, polls, i);
    hide IsPollRun, AfterPolls, DataTimestamp, Decide;
  }

  /** In every run a reply is skipped exactly if it repeats the generation of the last
      reply ingested, or carries a timestamp that is not newer; before the first success
      nothing that carries a generation or a timestamp after the zero instant is. */
  lemma SkippedIffSeen(codec: TimeCodec, polls: seq<Poll>, n: nat)
    requires IsPollRun(codec, polls) && n < |polls| && polls[n].fetch.Fetched?
    ensures
      var reply := polls[n].fetch.reply;
      && (forall i: nat |
            i < n && polls[i].outcome.PollSucceeded? && forall k :: i < k < n ==> !polls[k].outcome.PollSucceeded? ::
            polls[i].fetch.Fetched?
            && (polls[n].outcome.PollSkipped? <==>
                  var last := polls[i].fetch.reply;
                  || (reply.generationId != "" && reply.generationId == last.generationId)
                  || (DataTimestamp(codec, reply) != ZERO_TIME
                      && DataTimestamp(codec, reply) <= DataTimestamp(codec, last))))
      && ((forall k :: 0 <= k < n ==> !polls[k].outcome.PollSucceeded?) ==>
            (polls[n].outcome.PollSkipped? <==> DataTimestamp(codec, reply) < ZERO_TIME))
  {
    PollOfRun(codec, polls, n);
    forall i: nat |
      i < n && polls[i].outcome.PollSucceeded? && forall k :: i < k < n ==> !polls[k].outcome.PollSucceeded?
      ensures polls[i].fetch.Fetched?
      ensures AfterPolls(polls[..n]).lastId == polls[i].fetch.reply.generationId
      ensures AfterPolls(polls[..n]).lastTime == DataTimestamp(codec, polls[i].fetch.reply)
    {
      SuccessRemembersReply(codec, polls, i);
      RemembersLastSuccess(polls[..n], i);
    }
    if forall k :: 0 <= k < n ==> !polls[k].outcome.PollSucceeded? {
      RemembersNothing(polls[..n]);
    }
    hide IsPollRun, AfterPolls, DataTimestamp, ParsedDocument;
  }

  /** In every run a poll without a reply is an error; one with a reply that is not skipped
      is an error if the document cannot be read or has no rows, or if no record of it
      names a switch, and a success if none of its rows can be parsed. */
  lemma EndsAsFetched(codec: TimeCodec, polls: seq<Poll>, n: nat)
    requires IsPollRun(codec, polls) && n < |polls|
    ensures polls[n].fetch.FetchFailed? ==> polls[n].outcome.PollFailed?
    ensures polls[n].fetch.Fetched? && !polls[n].outcome.PollSkipped? ==>
              match ParsedDocument(codec, polls[n].fetch.reply.body)
              case Err(_) => polls[n].outcome.PollFailed?
              case Ok(data) =>
                && (data == [] ==> polls[n].outcome.PollSucceeded?)
                && (data != [] && (forall m | m in data :: m.switchId == "") ==> polls[n].outcome.PollFailed?)
  {
    PollOfRun(codec, polls, n);
    hide IsPollRun, AfterPolls, DataTimestamp, ParsedDocument, IsDuplicate;
    if polls[n].fetch.Fetched? && ParsedDocument(codec, polls[n].fetch.reply.body).Ok? {
      var data := ParsedDocument(codec, polls[n].fetch.reply.body).value;
      ValidRecordsKept(data);
      if ValidRecords(data) != [] {
        assert ValidRecords(data)[0] in ValidRecords(data);
      }
    }
  }

  lemma {:induction false} RemembersNothing(polls: seq<Poll>)
    requires forall k :: 0 <= k < |polls| ==> !polls[k].outcome.PollSucceeded?
    ensures AfterPolls(polls).lastId == "" && AfterPolls(polls).lastTime == ZERO_TIME
  {
    if polls != [] {
      var n := |polls| - 1;
      assert !polls[n].outcome.PollSucceeded?;
      RemembersNothing(polls[..n]);
    }
  }
}
