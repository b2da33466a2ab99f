/** The whole ingest protocol as one machine: the generator publishes in two steps,
    the client polls, and the store's write path runs underneath, all interleaved.
    Publishing times are assumed to be strictly increasing. */
module EndToEnd {
  import opened Models
  import opened Batches
  import opened Csv
  import opened Generator
  import opened Service
  import opened Client
  import W = WritePath
  import WriteCounters

  /** A published document. */
  datatype Document = Document(time: Time, body: string)

  /** What the client is doing. `doc` says which document the reply carries; the
      client itself does not know. */
  datatype Activity =
    | Idle
    | Deciding(reply: Response, doc: nat, stamp: Time)
    | Ingesting(reply: Response, doc: nat, stamp: Time, job: nat)

  /** The reply of the last successful poll: its document and the generation the
      reply was stamped with. */
  datatype Origin = Origin(doc: nat, stamp: Time)

  /** `published`, `calls`, `last`, `ingested` and `polls` are history: all documents
      swapped in, the document of each bulk call of the client, the origin of the last
      success, the documents some successful poll carried, and every poll that has ended. */
  datatype System = System(
    published: seq<Document>,
    stamp: Time,
    memory: Memory,
    activity: Activity,
    store: W.State,
    calls: map<nat, nat>,
    last: Option<Origin>,
    ingested: set<nat>,
    polls: seq<Poll>)

  function Start(maxRetries: int): System {
    System([], ZERO_TIME, FRESH, Idle, W.Init(maxRetries), map[], None, {}, [])
  }

  /** The time of the document being served. */
  function Served(published: seq<Document>): Time {
    if published == [] then ZERO_TIME else published[|published| - 1].time
  }

  datatype Step =
    | Stamp(now: Time)           // the generation ID changes, ahead of the data
    | Swap(body: string)         // data and timestamp are swapped in
    | FetchFails
    | FetchReply
    | Process                    // deduplicate, parse, start to ingest
    | Finish                     // the bulk call returned
    | Store(step: W.Step)        // any step of the write path

  function Reply(codec: TimeCodec, s: System): Response
    requires s.published != []
  {
    var doc := s.published[|s.published| - 1];
    Response(GenerationName(s.stamp), codec.format(doc.time), doc.body)
  }

  predicate Enabled(s: System, step: Step) {
    match step
    case Stamp(now) => s.stamp == Served(s.published) && s.stamp < now && Printable(now)
    case Swap(body) => s.stamp != Served(s.published)
    case FetchFails => s.activity.Idle?
    case FetchReply => s.activity.Idle? && s.published != [] && s.published[|s.published| - 1].body != ""
    case Process => s.activity.Deciding?
    case Finish =>
      s.activity.Ingesting? && s.activity.job < |s.store.jobs| && s.store.jobs[s.activity.job].phase.Finished?
    case Store(step) => W.Enabled(s.store, step)
  }

  /** What the poll in progress has fetched. */
  function Got(activity: Activity): Fetch {
    if activity.Idle? then FetchFailed else Fetched(activity.reply)
  }

  /** The poll ends. */
  function End(s: System, outcome: PollOutcome): System {
    s.(memory := Settle(s.memory, outcome),
       activity := Idle,
       polls := s.polls + [Poll(Got(s.activity), outcome)])
  }

  function Succeed(s: System, reply: Response, time: Time, origin: Origin): System {
    End(s, PollSucceeded(reply.generationId, time)).(last := Some(origin), ingested := s.ingested + {origin.doc})
  }

  function ProcessReply(codec: TimeCodec, s: System): System
    requires s.activity.Deciding?
  {
    var Deciding(reply, doc, stamp) := s.activity;
    match Decide(codec, s.memory, reply)
    case Skip => End(s, PollSkipped)
    case Refuse => End(s, PollFailed)
    case Ingest(data) =>
      if data == [] then Succeed(s, reply, DataTimestamp(codec, reply), Origin(doc, stamp))
      else if ValidRecords(data) == [] then End(s, PollFailed)
      else
        StartBulkCall(s, reply, doc, stamp, ValidRecords(data))
  }

  function StartBulkCall(s: System, reply: Response, doc: nat, stamp: Time, records: seq<TelemetryData>): System
    requires records != []
  {
    var job := |s.store.jobs|;
    s.(store := W.Next(s.store, W.BulkCall(records, W.Background)),
       activity := Ingesting(reply, doc, stamp, job),
       calls := s.calls[job := doc])
  }

  function CallReturned(codec: TimeCodec, s: System): System
    requires Enabled(s, Finish)
  {
    var Ingesting(reply, doc, stamp, job) := s.activity;
    if s.store.jobs[job].phase.outcome.Committed?
    then Succeed(s, reply, DataTimestamp(codec, reply), Origin(doc, stamp))
    else End(s, PollFailed)
  }

  function Next(codec: TimeCodec, s: System, step: Step): System
    requires Enabled(s, step)
  {
    match step
    case Stamp(now) => s.(stamp := now)
    case Swap(body) => s.(published := s.published + [Document(s.stamp, body)])
    case FetchFails => End(s.(memory := Begin(s.memory)), PollFailed)
    case FetchReply =>
      s.(memory := Begin(s.memory), activity := Deciding(Reply(codec, s), |s.published| - 1, s.stamp))
    case Process => ProcessReply(codec, s)
    case Finish => CallReturned(codec, s)
    case Store(step) => s.(store := W.Next(s.store, step))
  }

  function Execute(codec: TimeCodec, s: System, steps: seq<Step>): Option<System> {
    if steps == [] then Some(s)
    else
      match Execute(codec, s, steps[..|steps| - 1])
      case None => None
      case Some(t) => if Enabled(t, steps[|steps| - 1]) then Some(Next(codec, t, steps[|steps| - 1])) else None
  }

  lemma ExecuteOneMore(codec: TimeCodec, s: System, steps: seq<Step>, t: System, step: Step)
    requires Execute(codec, s, steps) == Some(t) && Enabled(t, step)
    ensures Execute(codec, s, steps + [step]) == Some(Next(codec, t, step))
  {
    assert (steps + [step])[..|steps|] == steps;
  }

  lemma {:induction false} ExecuteThen(codec: TimeCodec, s: System, steps: seq<Step>, t: System, more: seq<Step>)
    requires Execute(codec, s, steps) == Some(t)
    ensures Execute(codec, s, steps + more) == Execute(codec, t, more)
  {
    hide Enabled, Next;
    if more == [] {
      assert steps + more == steps;
    } else {
      ExecuteThen(codec, s, steps, t, more[..|more| - 1]);
      assert (steps + more)[..|steps + more| - 1] == steps + more[..|more| - 1];
    }
  }

  function Lift(steps: seq<W.Step>): (lifted: seq<Step>)
    ensures |lifted| == |steps| && forall i :: 0 <= i < |steps| ==> lifted[i] == Store(steps[i])
  {
    seq(|steps|, i requires 0 <= i < |steps| => Store(steps[i]))
  }

  /** A run of the write path is a run of the whole system. */
  lemma {:induction false} StoreRun(codec: TimeCodec, s: System, steps: seq<W.Step>, store: W.State)
    requires W.Execute(s.store, steps) == Some(store)
    ensures Execute(codec, s, Lift(steps)) == Some(s.(store := store))
  {
    hide W.Enabled, W.Next;
    if steps != [] {
      var front := steps[..|steps| - 1];
      StoreRun(codec, s, front, W.Execute(s.store, front).value);
      assert Lift(steps)[..|steps| - 1] == Lift(front);
    }
  }

  ghost predicate Reachable(codec: TimeCodec, maxRetries: int, s: System) {
    exists steps :: Execute(codec, Start(maxRetries), steps) == Some(s)
  }

  // ----- what every step keeps -----

  predicate PublishedOk(s: System) {
    && (forall i :: 0 <= i < |s.published| ==> ZERO_TIME < s.published[i].time && Printable(s.published[i].time))
    && (forall i, k :: 0 <= i < k < |s.published| ==> s.published[i].time < s.published[k].time)
    && Served(s.published) <= s.stamp && Printable(s.stamp)
  }

  /** The stamp that follows document `doc`: the next document's, or the current one. */
  function FollowingStamp(s: System, doc: nat): Time {
    if doc + 1 < |s.published| then s.published[doc + 1].time else s.stamp
  }

  /** A reply carries one document; its generation is that document's own, or the
      following one's if it was read between the two steps of publishing. */
  predicate OriginOk(s: System, doc: nat, stamp: Time) {
    doc < |s.published| && (stamp == s.published[doc].time || stamp == FollowingStamp(s, doc))
  }

  predicate ReplyOk(codec: TimeCodec, s: System, reply: Response, doc: nat, stamp: Time) {
    && OriginOk(s, doc, stamp)
    && reply == Response(GenerationName(stamp), codec.format(s.published[doc].time), s.published[doc].body)
    && reply.body != ""
  }

  predicate MemoryOk(s: System) {
    match s.last
    case None => s.memory.lastId == "" && s.memory.lastTime == ZERO_TIME
    case Some(Origin(doc, stamp)) =>
      OriginOk(s, doc, stamp) && s.memory.lastId == GenerationName(stamp) && s.memory.lastTime == s.published[doc].time
  }

  predicate ActivityOk(codec: TimeCodec, s: System) {
    match s.activity
    case Idle => true
    case Deciding(reply, doc, stamp) => ReplyOk(codec, s, reply, doc, stamp)
    case Ingesting(reply, doc, stamp, job) =>
      && ReplyOk(codec, s, reply, doc, stamp)
      && job in s.calls && s.calls[job] == doc
      && s.memory.lastTime < s.published[doc].time
  }

  /** The records document `doc` contributes. */
  function Contribution(codec: TimeCodec, body: string): seq<TelemetryData> {
    match ParsedDocument(codec, body)
    case Err(_) => []
    case Ok(data) => ValidRecords(data)
  }

  predicate Running(s: System, job: nat) {
    s.activity.Ingesting? && s.activity.job == job
  }

  predicate HasCommitted(store: W.State, job: nat) {
    CommittedAt(store, job).Some?
  }

  /** The chunk a call has committed, if it has. */
  function CommittedAt(store: W.State, job: nat): Option<nat> {
    if job < |store.jobs| then W.ChunkOf(store.jobs[job].phase) else None
  }

  /** The call committed or ran out of attempts, if it has returned. */
  predicate DecidedByStore(phase: W.Phase) {
    phase.Finished? ==> phase.outcome.Committed? || phase.outcome.Exhausted?
  }

  predicate CallOk(codec: TimeCodec, s: System, job: nat)
    requires job in s.calls
  {
    && job < |s.store.jobs| && s.calls[job] < |s.published|
    && s.store.jobs[job].kind.FromBulk? && s.store.jobs[job].ctx.Background?
    && s.store.jobs[job].batches == [Contribution(codec, s.published[s.calls[job]].body)]
    && Contribution(codec, s.published[s.calls[job]].body) != []
    && (!Running(s, job) ==> s.store.jobs[job].phase.Finished?)
    && DecidedByStore(s.store.jobs[job].phase)
    && (!Running(s, job) && HasCommitted(s.store, job) ==>
          s.calls[job] in s.ingested && s.published[s.calls[job]].time <= s.memory.lastTime)
  }

  /** If both calls have committed, the later one carried a later document, to a later
      place in the log. */
  predicate InOrder(store: W.State, calls: map<nat, nat>, j: nat, k: nat)
    requires j in calls && k in calls
  {
    CommittedAt(store, j).Some? && CommittedAt(store, k).Some? ==>
      calls[j] < calls[k] && CommittedAt(store, j).value < CommittedAt(store, k).value
  }

  /** The calls commit in order; the one in progress is the last. */
  predicate CommitsInOrder(s: System) {
    && (forall j, k | j in s.calls && k in s.calls && j < k :: InOrder(s.store, s.calls, j, k))
    && (s.activity.Ingesting? ==> forall j | j in s.calls :: j <= s.activity.job)
  }

  /** Every document remembered as ingested was committed, if it has valid records. */
  ghost predicate IngestedOk(codec: TimeCodec, s: System) {
    forall doc | doc in s.ingested ::
      doc < |s.published|
      && (Contribution(codec, s.published[doc].body) == []
          || exists job :: job in s.calls && s.calls[job] == doc && HasCommitted(s.store, job))
  }

  /** What the client remembers is what the polls that have ended leave, each of which
      could end as it did; the one in progress is counted as begun. */
  predicate PollsOk(codec: TimeCodec, s: System) {
    && IsPollRun(codec, s.polls)
    && s.memory == (if s.activity.Idle? then AfterPolls(s.polls) else Begin(AfterPolls(s.polls)))
    && (s.activity.Ingesting? ==>
          var decision := Decide(codec, s.memory, s.activity.reply);
          decision.Ingest? && ValidRecords(decision.data) != [])
  }

  /** Each success was with a document of its own, not newer than the last. */
  predicate IngestedOnce(s: System) {
    && |s.ingested| == s.memory.counts.successful
    && forall doc | doc in s.ingested :: doc < |s.published| && s.published[doc].time <= s.memory.lastTime
  }

  ghost predicate Invariant(codec: TimeCodec, s: System) {
    && W.Invariant(s.store)
    && PublishedOk(s) && MemoryOk(s) && ActivityOk(codec, s) && PollsOk(codec, s) && IngestedOnce(s)
    && (forall job | job in s.calls :: CallOk(codec, s, job))
    && CommitsInOrder(s)
    && IngestedOk(codec, s)
  }

  lemma StartInvariant(codec: TimeCodec, maxRetries: int)
    ensures Invariant(codec, Start(maxRetries))
  {
    W.InitInvariant(maxRetries);
    hide W.Invariant, W.Init;
  }

  /** The client reads back the time at which the document was published. */
  lemma ReplyTimestamp(codec: TimeCodec, s: System, reply: Response, doc: nat, stamp: Time)
    requires GoodCodec(codec) && PublishedOk(s) && ReplyOk(codec, s, reply, doc, stamp)
    ensures DataTimestamp(codec, reply) == s.published[doc].time
  {
    hide ExtractFirstTimestamp;
  }

  /** What is remembered as ingested stays committed. */
  lemma IngestedKept(codec: TimeCodec, s: System, s': System)
    requires IngestedOk(codec, s) && s'.ingested == s.ingested
    requires |s.published| <= |s'.published| && forall i :: 0 <= i < |s.published| ==> s'.published[i] == s.published[i]
    requires forall job | job in s.calls ::
               && job in s'.calls && s'.calls[job] == s.calls[job]
               && (HasCommitted(s.store, job) ==> HasCommitted(s'.store, job))
    ensures IngestedOk(codec, s')
  {
    hide Contribution, HasCommitted;
    forall doc | doc in s'.ingested && Contribution(codec, s'.published[doc].body) != []
      ensures exists job :: job in s'.calls && s'.calls[job] == doc && HasCommitted(s'.store, job)
    {
      var job :| job in s.calls && s.calls[job] == doc && HasCommitted(s.store, job);
      assert job in s'.calls;
    }
  }

  // ----- publishing -----

  /** Publishing leaves the origins of earlier replies in order. */
  lemma OriginsKept(s: System, step: Step, s': System, doc: nat, stamp: Time)
    requires PublishedOk(s) && Enabled(s, step) && OriginOk(s, doc, stamp)
    requires step.Stamp? ==> s' == s.(stamp := step.now)
    requires step.Swap? ==> s' == s.(published := s.published + [Document(s.stamp, step.body)])
    requires step.Stamp? || step.Swap?
    ensures OriginOk(s', doc, stamp) && s'.published[doc] == s.published[doc]
  {
  }

  lemma PublishedKept(s: System, step: Step, s': System)
    requires PublishedOk(s) && Enabled(s, step)
    requires step.Stamp? ==> s' == s.(stamp := step.now)
    requires step.Swap? ==> s' == s.(published := s.published + [Document(s.stamp, step.body)])
    requires step.Stamp? || step.Swap?
    ensures PublishedOk(s') && |s.published| <= |s'.published|
    ensures forall i :: 0 <= i < |s.published| ==> s'.published[i] == s.published[i]
  {
  }

  lemma CallsUnderPublish(codec: TimeCodec, s: System, s': System, job: nat)
    requires job in s.calls && CallOk(codec, s, job)
    requires s' == s.(stamp := s'.stamp, published := s'.published)
    requires |s.published| <= |s'.published| && forall i :: 0 <= i < |s.published| ==> s'.published[i] == s.published[i]
    ensures CallOk(codec, s', job)
  {
    hide Contribution, HasCommitted;
  }

  lemma OriginsUnderPublish(codec: TimeCodec, s: System, s': System)
    requires MemoryOk(s) && ActivityOk(codec, s)
    requires s' == s.(stamp := s'.stamp, published := s'.published)
    requires forall doc: nat, stamp: Time | OriginOk(s, doc, stamp) ::
               OriginOk(s', doc, stamp) && s'.published[doc] == s.published[doc]
    ensures MemoryOk(s') && ActivityOk(codec, s')
  {
    hide OriginOk;
    match s.activity
    case Idle =>
    case Deciding(reply, doc, stamp) => assert OriginOk(s, doc, stamp);
    case Ingesting(reply, doc, stamp, _) => assert OriginOk(s, doc, stamp);
  }

  /** Publishing adds to the documents or changes the stamp, and nothing else. */
  lemma PublishStep(codec: TimeCodec, s: System, step: Step, s': System)
    requires PublishedOk(s) && Enabled(s, step) && (step.Stamp? || step.Swap?) && s' == Next(codec, s, step)
    ensures s' == s.(stamp := s'.stamp, published := s'.published) && PublishedOk(s')
    ensures |s.published| <= |s'.published| && forall i :: 0 <= i < |s.published| ==> s'.published[i] == s.published[i]
    ensures forall doc: nat, stamp: Time | OriginOk(s, doc, stamp) ::
              OriginOk(s', doc, stamp) && s'.published[doc] == s.published[doc]
  {
    hide W.Next, W.Enabled;
    PublishedKept(s, step, s');
    forall doc: nat, stamp: Time | OriginOk(s, doc, stamp)
      ensures OriginOk(s', doc, stamp) && s'.published[doc] == s.published[doc]
    {
      OriginsKept(s, step, s', doc, stamp);
    }
  }

  lemma KeepPublish(codec: TimeCodec, s: System, step: Step)
    requires Invariant(codec, s) && Enabled(s, step) && (step.Stamp? || step.Swap?)
    ensures Invariant(codec, Next(codec, s, step))
  {
    hide W.Invariant, Contribution, HasCommitted, PublishedOk, OriginOk, CallOk, MemoryOk, ActivityOk, IngestedOk,
      Next, Enabled;
    var s' := Next(codec, s, step);
    PublishStep(codec, s, step, s');
    OriginsUnderPublish(codec, s, s');
    IngestedKept(codec, s, s');
    forall job | job in s'.calls
      ensures CallOk(codec, s', job)
    {
      CallsUnderPublish(codec, s, s', job);
    }
  }

  // ----- polling -----

  /** Beginning a poll does not change how it can end. */
  lemma BegunPoll(codec: TimeCodec, m: Memory, fetch: Fetch, outcome: PollOutcome)
    ensures IsPoll(codec, Begin(m), fetch, outcome) <==> IsPoll(codec, m, fetch, outcome)
  {
    hide DataTimestamp, ParsedDocument, ValidRecords;
  }

  lemma OneMorePoll(codec: TimeCodec, polls: seq<Poll>, poll: Poll)
    requires IsPollRun(codec, polls) && IsPoll(codec, AfterPolls(polls), poll.fetch, poll.outcome)
    ensures IsPollRun(codec, polls + [poll])
    ensures AfterPolls(polls + [poll]) == Settle(Begin(AfterPolls(polls)), poll.outcome)
  {
    var more := polls + [poll];
    assert more[..|polls|] == polls;
    hide IsPoll, Settle, Begin;
    assert forall i :: 0 <= i < |polls| ==> more[..i] == polls[..i];
  }

  /** The poll in progress ends in a way its reply allows. */
  lemma PollEnds(codec: TimeCodec, s: System, s': System, outcome: PollOutcome)
    requires PollsOk(codec, s) && !s.activity.Idle? && IsPoll(codec, s.memory, Fetched(s.activity.reply), outcome)
    requires s'.activity.Idle? && s'.memory == Settle(s.memory, outcome)
    requires s'.polls == s.polls + [Poll(Fetched(s.activity.reply), outcome)]
    ensures PollsOk(codec, s')
  {
    hide IsPoll, Settle, Begin, AfterPolls, IsPollRun, Decide, ValidRecords;
    BegunPoll(codec, AfterPolls(s.polls), Fetched(s.activity.reply), outcome);
    OneMorePoll(codec, s.polls, Poll(Fetched(s.activity.reply), outcome));
  }

  /** A poll begins or ends without a success. */
  lemma KeepPoll(codec: TimeCodec, s: System, s': System)
    requires Invariant(codec, s) && !s.activity.Ingesting?
    requires s' == s.(memory := s'.memory, activity := s'.activity, polls := s'.polls)
    requires s'.memory.lastId == s.memory.lastId && s'.memory.lastTime == s.memory.lastTime
    requires s'.memory.counts.successful == s.memory.counts.successful
    requires !s'.activity.Ingesting? && ActivityOk(codec, s') && PollsOk(codec, s')
    ensures Invariant(codec, s')
  {
    hide W.Invariant, Contribution, HasCommitted, ActivityOk, PollsOk, IngestedOk;
    IngestedKept(codec, s, s');
    forall job | job in s'.calls
      ensures CallOk(codec, s', job)
    {
      assert CallOk(codec, s, job);
    }
  }

  lemma KeepFetchReply(codec: TimeCodec, s: System)
    requires Invariant(codec, s) && Enabled(s, FetchReply)
    ensures Invariant(codec, Next(codec, s, FetchReply))
  {
    hide W.Invariant, CallOk, IngestedOk, IngestedOnce, CommitsInOrder, AfterPolls, IsPollRun, MemoryOk;
    KeepPoll(codec, s, Next(codec, s, FetchReply));
  }

  lemma KeepFetchFails(codec: TimeCodec, s: System)
    requires Invariant(codec, s) && Enabled(s, FetchFails)
    ensures Invariant(codec, Next(codec, s, FetchFails))
  {
    hide W.Invariant, CallOk, IngestedOk, IngestedOnce, CommitsInOrder, AfterPolls, IsPollRun, MemoryOk, PublishedOk;
    OneMorePoll(codec, s.polls, Poll(FetchFailed, PollFailed));
    KeepPoll(codec, s, Next(codec, s, FetchFails));
  }

  /** A poll succeeds with document `doc`, which is newer than the last success. */
  lemma KeepSucceed(codec: TimeCodec, s: System, reply: Response, doc: nat, stamp: Time)
    requires Invariant(codec, s) && !s.activity.Idle? && ReplyOk(codec, s, reply, doc, stamp)
    requires s.memory.lastTime < s.published[doc].time
    requires s.activity.Ingesting? ==>
               s.activity.doc == doc && s.store.jobs[s.activity.job].phase.Finished?
               && HasCommitted(s.store, s.activity.job)
    requires !s.activity.Ingesting? ==> Contribution(codec, s.published[doc].body) == []
    requires s.activity.reply == reply
    requires IsPoll(codec, s.memory, Fetched(reply), PollSucceeded(reply.generationId, s.published[doc].time))
    ensures Invariant(codec, Succeed(s, reply, s.published[doc].time, Origin(doc, stamp)))
  {
    OriginOfReply(codec, s, reply, doc, stamp);
    hide W.Invariant, Contribution, HasCommitted, IsPoll, PollsOk, CallOk, IngestedOk, IngestedOnce, ReplyOk,
      CommitsInOrder, PublishedOk, OriginOk;
    var s' := Succeed(s, reply, s.published[doc].time, Origin(doc, stamp));
    SucceedIngested(codec, s, s', doc);
    PollEnds(codec, s, s', PollSucceeded(reply.generationId, s.published[doc].time));
    SucceedsOnce(s, s', doc);
    SucceedsInOrder(s, s', doc, stamp);
    forall job | job in s'.calls
      ensures CallOk(codec, s', job)
    {
      assert CallOk(codec, s, job);
      SucceedsForCall(codec, s, s', doc, job);
    }
  }

  lemma OriginOfReply(codec: TimeCodec, s: System, reply: Response, doc: nat, stamp: Time)
    requires ReplyOk(codec, s, reply, doc, stamp)
    ensures doc < |s.published| && OriginOk(s, doc, stamp) && reply.generationId == GenerationName(stamp)
  {
  }

  lemma SucceedsInOrder(s: System, s': System, doc: nat, stamp: Time)
    requires PublishedOk(s) && CommitsInOrder(s) && OriginOk(s, doc, stamp)
    requires s'.published == s.published && s'.stamp == s.stamp && s'.store == s.store && s'.calls == s.calls
    requires s'.activity.Idle?
    ensures PublishedOk(s') && CommitsInOrder(s') && OriginOk(s', doc, stamp)
  {
  }

  lemma SucceedsForCall(codec: TimeCodec, s: System, s': System, doc: nat, job: nat)
    requires job in s.calls && CallOk(codec, s, job) && doc < |s.published|
    requires s'.calls == s.calls && s'.published == s.published && s'.store == s.store && s'.activity.Idle?
    requires s'.ingested == s.ingested + {doc} && s'.memory.lastTime == s.published[doc].time
    requires s.memory.lastTime < s.published[doc].time
    requires Running(s, job) ==>
               s.calls[job] == doc && job < |s.store.jobs| && s.store.jobs[job].phase.Finished?
    ensures CallOk(codec, s', job)
  {
    hide Contribution, HasCommitted;
  }

  lemma SucceedsOnce(s: System, s': System, doc: nat)
    requires IngestedOnce(s) && doc < |s.published| && s.memory.lastTime < s.published[doc].time
    requires s'.published == s.published && s'.ingested == s.ingested + {doc}
    requires s'.memory.lastTime == s.published[doc].time
    requires s'.memory.counts.successful == s.memory.counts.successful + 1
    ensures IngestedOnce(s')
  {
    assert doc !in s.ingested;
  }

  /** The document just ingested joins those remembered. */
  lemma SucceedIngested(codec: TimeCodec, s: System, s': System, doc: nat)
    requires IngestedOk(codec, s) && doc < |s.published|
    requires s'.published == s.published && s'.calls == s.calls && s'.store == s.store
    requires s'.ingested == s.ingested + {doc}
    requires Contribution(codec, s.published[doc].body) == []
          || (s.activity.Ingesting? && s.activity.job in s.calls && s.calls[s.activity.job] == doc
              && HasCommitted(s.store, s.activity.job))
    ensures IngestedOk(codec, s')
  {
    hide Contribution, HasCommitted;
    forall d | d in s'.ingested && d != doc
      ensures d in s.ingested
    {
    }
  }

  /** A new bulk job at the end leaves the others as they were. */
  lemma BulkCallJobs(store: W.State, records: seq<TelemetryData>)
    requires W.Enabled(store, W.BulkCall(records, W.Background))
    ensures
      W.Next(store, W.BulkCall(records, W.Background)).jobs
      == store.jobs + [W.Job(W.FromBulk, [], [records], W.Background, W.Looping(1))]
  {
    hide Concat;
  }

  /** A call stays in order while its job, its document and the last success do. */
  lemma CallUnchanged(codec: TimeCodec, s: System, s': System, k: nat)
    requires k in s.calls && CallOk(codec, s, k) && !s.activity.Ingesting?
    requires k in s'.calls && s'.calls[k] == s.calls[k] && s'.published == s.published && s'.memory == s.memory
    requires s'.ingested == s.ingested && k < |s'.store.jobs| && s'.store.jobs[k] == s.store.jobs[k]
    requires !Running(s', k)
    ensures CallOk(codec, s', k) && CommittedAt(s'.store, k) == CommittedAt(s.store, k)
  {
    hide Contribution;
  }

  /** The call just started is in order, and the others are as they were. */
  lemma StartedCalls(codec: TimeCodec, s: System, reply: Response, doc: nat, stamp: Time, k: nat)
    requires Invariant(codec, s) && s.activity == Deciding(reply, doc, stamp) && doc < |s.published|
    requires Contribution(codec, s.published[doc].body) != []
    requires k in s.calls || k == |s.store.jobs|
    ensures
      var s' := StartBulkCall(s, reply, doc, stamp, Contribution(codec, s.published[doc].body));
      && k in s'.calls && CallOk(codec, s', k)
      && (k in s.calls ==> k < |s.store.jobs| && s'.calls[k] == s.calls[k])
      && CommittedAt(s'.store, k) == CommittedAt(s.store, k)
  {
    hide Invariant, Contribution, W.Next, W.Enabled, CallOk, CommittedAt;
    var records := Contribution(codec, s.published[doc].body);
    var s' := StartBulkCall(s, reply, doc, stamp, records);
    BulkCallIsNew(codec, s, records);
    BulkCallJobs(s.store, records);
    if k in s.calls {
      KnownCall(codec, s, k);
      CallUnchanged(codec, s, s', k);
    } else {
      CallStarted(codec, s, s', doc, k);
    }
  }

  lemma KnownCall(codec: TimeCodec, s: System, k: nat)
    requires Invariant(codec, s) && k in s.calls
    ensures CallOk(codec, s, k)
  {
    hide W.Invariant, CallOk;
  }

  lemma CallStarted(codec: TimeCodec, s: System, s': System, doc: nat, k: nat)
    requires doc < |s.published| == |s'.published| && s'.published[doc] == s.published[doc]
    requires Contribution(codec, s.published[doc].body) != []
    requires k in s'.calls && s'.calls[k] == doc && Running(s', k) && k == |s.store.jobs| < |s'.store.jobs|
    requires s'.store.jobs[k]
          == W.Job(W.FromBulk, [], [Contribution(codec, s.published[doc].body)], W.Background, W.Looping(1))
    ensures CallOk(codec, s', k) && CommittedAt(s'.store, k) == CommittedAt(s.store, k)
  {
    hide Contribution;
  }

  /** Starting a call, whatever else the store does in that step. */
  lemma KeepCallStart(codec: TimeCodec, s: System, s': System, job: nat)
    requires Invariant(codec, s) && s.activity.Deciding? && job !in s.calls
    requires
      var Deciding(reply, doc, stamp) := s.activity;
      && s' == s.(store := s'.store, activity := Ingesting(reply, doc, stamp, job), calls := s.calls[job := doc])
      && s.memory.lastTime < s.published[doc].time
    requires PollsOk(codec, s') && W.Invariant(s'.store) && !HasCommitted(s'.store, job)
    requires forall k | k in s'.calls :: CallOk(codec, s', k)
    requires forall k | k in s.calls :: k < job && CommittedAt(s'.store, k) == CommittedAt(s.store, k)
    ensures Invariant(codec, s')
  {
    hide W.Invariant, Contribution, CallOk, IngestedOk, PollsOk;
    forall j, k | j in s'.calls && k in s'.calls && j < k
      ensures InOrder(s'.store, s'.calls, j, k)
    {
      assert k != job ==> InOrder(s.store, s.calls, j, k);
    }
    hide CommittedAt, InOrder;
    IngestedKept(codec, s, s');
  }

  lemma BulkCallIsNew(codec: TimeCodec, s: System, records: seq<TelemetryData>)
    requires Invariant(codec, s) && records != []
    ensures W.Enabled(s.store, W.BulkCall(records, W.Background)) && W.Invariant(s.store)
    ensures |s.store.jobs| !in s.calls && !HasCommitted(s.store, |s.store.jobs|)
    ensures forall k | k in s.calls :: k < |s.store.jobs|
  {
    hide W.Invariant, Contribution;
    forall k | k in s.calls
      ensures k < |s.store.jobs|
    {
      assert CallOk(codec, s, k);
    }
  }

  lemma KeepBulkCall(codec: TimeCodec, s: System, reply: Response, doc: nat, stamp: Time)
    requires Invariant(codec, s) && s.activity == Deciding(reply, doc, stamp) && doc < |s.published|
    requires s.memory.lastTime < s.published[doc].time && Contribution(codec, s.published[doc].body) != []
    requires Decide(codec, s.memory, reply).Ingest?
    requires ValidRecords(Decide(codec, s.memory, reply).data) == Contribution(codec, s.published[doc].body)
    ensures Invariant(codec, StartBulkCall(s, reply, doc, stamp, Contribution(codec, s.published[doc].body)))
  {
    BulkCallPolls(codec, s, reply, doc, stamp);
    hide W.Invariant, W.Next, W.Enabled, Contribution, CallOk, CommittedAt, Invariant, Decide, ValidRecords, PollsOk;
    var job := |s.store.jobs|;
    var records := Contribution(codec, s.published[doc].body);
    var s' := StartBulkCall(s, reply, doc, stamp, records);
    BulkCallIsNew(codec, s, records);
    W.StepKeepsInvariant(s.store, W.BulkCall(records, W.Background));
    forall k | k in s'.calls
      ensures CallOk(codec, s', k)
      ensures CommittedAt(s'.store, k) == CommittedAt(s.store, k)
    {
      StartedCalls(codec, s, reply, doc, stamp, k);
    }
    KeepCallStart(codec, s, s', job);
  }

  lemma NotSkipped(codec: TimeCodec, s: System, reply: Response, doc: nat, stamp: Time)
    requires GoodCodec(codec) && PublishedOk(s) && ReplyOk(codec, s, reply, doc, stamp)
    requires Decide(codec, s.memory, reply).Ingest?
    ensures DataTimestamp(codec, reply) == s.published[doc].time && s.memory.lastTime < s.published[doc].time
    ensures ValidRecords(Decide(codec, s.memory, reply).data) == Contribution(codec, s.published[doc].body)
  {
    ReplyTimestamp(codec, s, reply, doc, stamp);
    hide DataTimestamp, ParsedDocument, ValidRecords;
  }

  /** The poll goes on with the call. */
  lemma BulkCallPolls(codec: TimeCodec, s: System, reply: Response, doc: nat, stamp: Time)
    requires PollsOk(codec, s) && s.activity == Deciding(reply, doc, stamp) && doc < |s.published|
    requires Contribution(codec, s.published[doc].body) != []
    requires Decide(codec, s.memory, reply).Ingest?
    requires ValidRecords(Decide(codec, s.memory, reply).data) == Contribution(codec, s.published[doc].body)
    ensures PollsOk(codec, StartBulkCall(s, reply, doc, stamp, Contribution(codec, s.published[doc].body)))
  {
    hide Contribution, Decide, ValidRecords, AfterPolls, IsPollRun, W.Next, W.Enabled;
  }

  /** Which ends a decision allows. */
  lemma EndsAllowed(codec: TimeCodec, m: Memory, reply: Response)
    ensures
      var decision, fetch := Decide(codec, m, reply), Fetched(reply);
      match decision
      case Skip => IsPoll(codec, m, fetch, PollSkipped)
      case Refuse => IsPoll(codec, m, fetch, PollFailed)
      case Ingest(data) =>
        && (data != [] ==> IsPoll(codec, m, fetch, PollFailed))
        && (data == [] || ValidRecords(data) != [] ==>
              IsPoll(codec, m, fetch, PollSucceeded(reply.generationId, DataTimestamp(codec, reply))))
  {
    assert ValidRecords([]) == [];
    hide Decide, DataTimestamp, ValidRecords;
  }

  /** The poll ends without a success. */
  lemma KeepEnd(codec: TimeCodec, s: System, outcome: PollOutcome)
    requires Invariant(codec, s) && s.activity.Deciding? && !outcome.PollSucceeded?
    requires IsPoll(codec, s.memory, Fetched(s.activity.reply), outcome)
    ensures Invariant(codec, End(s, outcome))
  {
    hide W.Invariant, CallOk, IngestedOk, IngestedOnce, CommitsInOrder, PollsOk, IsPoll, PublishedOk, MemoryOk;
    PollEnds(codec, s, End(s, outcome), outcome);
    KeepPoll(codec, s, End(s, outcome));
  }

  lemma KeepProcess(codec: TimeCodec, s: System)
    requires GoodCodec(codec) && Invariant(codec, s) && Enabled(s, Process)
    ensures Invariant(codec, Next(codec, s, Process))
  {
    var Deciding(reply, doc, stamp) := s.activity;
    var decision := Decide(codec, s.memory, reply);
    assert PublishedOk(s) && ReplyOk(codec, s, reply, doc, stamp);
    assert ValidRecords([]) == [];
    EndsAllowed(codec, s.memory, reply);
    hide Invariant, Decide, Contribution, W.Next, W.Enabled, ValidRecords, IsPoll, DataTimestamp, End, Succeed,
      StartBulkCall, GoodCodec, PublishedOk, ReplyOk;
    assert Next(codec, s, Process) == ProcessReply(codec, s);
    match decision
    case Skip => KeepEnd(codec, s, PollSkipped);
    case Refuse => KeepEnd(codec, s, PollFailed);
    case Ingest(data) =>
      NotSkipped(codec, s, reply, doc, stamp);
      assert doc < |s.published| by { PublishedReply(codec, s, reply, doc, stamp); }
      if data == [] {
        KeepSucceed(codec, s, reply, doc, stamp);
      } else if ValidRecords(data) == [] {
        KeepEnd(codec, s, PollFailed);
      } else {
        KeepBulkCall(codec, s, reply, doc, stamp);
      }
  }

  lemma PublishedReply(codec: TimeCodec, s: System, reply: Response, doc: nat, stamp: Time)
    requires ReplyOk(codec, s, reply, doc, stamp)
    ensures doc < |s.published|
  {
  }

  lemma FailedFinishPolls(codec: TimeCodec, s: System)
    requires PollsOk(codec, s) && s.activity.Ingesting?
    ensures PollsOk(codec, End(s, PollFailed))
  {
    EndsAllowed(codec, s.memory, s.activity.reply);
    assert ValidRecords([]) == [];
    assert IsPoll(codec, s.memory, Fetched(s.activity.reply), PollFailed) by {
      hide IsPoll, ValidRecords;
    }
    hide IsPoll, ValidRecords, Decide, AfterPolls, IsPollRun, PollsOk;
    PollEnds(codec, s, End(s, PollFailed), PollFailed);
  }

  lemma KeepFailedFinish(codec: TimeCodec, s: System)
    requires Invariant(codec, s) && s.activity.Ingesting? && s.activity.job < |s.store.jobs|
    requires s.store.jobs[s.activity.job].phase.Finished? && !HasCommitted(s.store, s.activity.job)
    ensures Invariant(codec, End(s, PollFailed))
  {
    hide W.Invariant, Contribution, PollsOk;
    FailedFinishPolls(codec, s);
    var s' := End(s, PollFailed);
    forall job | job in s'.calls
      ensures CallOk(codec, s', job)
    {
      assert CallOk(codec, s, job);
    }
  }

  /** What is known of the reply being ingested. */
  lemma IngestingReply(codec: TimeCodec, s: System)
    requires GoodCodec(codec) && Invariant(codec, s) && s.activity.Ingesting?
    ensures
      var Ingesting(reply, doc, stamp, _) := s.activity;
      && doc < |s.published| && ReplyOk(codec, s, reply, doc, stamp)
      && s.memory.lastTime < s.published[doc].time
      && DataTimestamp(codec, reply) == s.published[doc].time
  {
    var Ingesting(reply, doc, stamp, job) := s.activity;
    hide W.Invariant, CallOk, DataTimestamp, GoodCodec, IngestedOk, CommitsInOrder, MemoryOk;
    ReplyTimestamp(codec, s, reply, doc, stamp);
  }

  lemma FinishedCall(codec: TimeCodec, s: System)
    requires Enabled(s, Finish)
    ensures
      var Ingesting(reply, doc, stamp, job) := s.activity;
      && job < |s.store.jobs| && s.store.jobs[job].phase.Finished?
      && CallReturned(codec, s)
         == if HasCommitted(s.store, job)
            then Succeed(s, reply, DataTimestamp(codec, reply), Origin(doc, stamp))
            else End(s, PollFailed)
  {
    hide Next, Succeed, End, DataTimestamp, W.Enabled;
  }

  lemma KeepFinish(codec: TimeCodec, s: System)
    requires GoodCodec(codec) && Invariant(codec, s) && Enabled(s, Finish)
    ensures Invariant(codec, CallReturned(codec, s))
  {
    FinishedCall(codec, s);
    IngestingReply(codec, s);
    hide Next, Succeed, End, Invariant, W.Next, W.Enabled, DataTimestamp, GoodCodec, ReplyOk, Contribution,
      HasCommitted, CallReturned, Enabled;
    var Ingesting(reply, doc, stamp, job) := s.activity;
    if HasCommitted(s.store, job) {
      KeepSucceed(codec, s, reply, doc, stamp);
    } else {
      KeepFailedFinish(codec, s);
    }
  }

  // ----- the write path underneath -----

  /** What a step of the write path can do to a bulk call of the client. */
  lemma StoreStepOnCall(store: W.State, step: W.Step, job: nat)
    requires W.Invariant(store) && W.Enabled(store, step) && job < |store.jobs|
    requires store.jobs[job].kind.FromBulk? && store.jobs[job].ctx.Background?
    ensures
      var store' := W.Next(store, step);
      && job < |store'.jobs| && store'.jobs[job].kind.FromBulk? && store'.jobs[job].ctx.Background?
      && store'.jobs[job].batches == store.jobs[job].batches
      && (store.jobs[job].phase.Finished? ==> store'.jobs[job].phase == store.jobs[job].phase)
      && (DecidedByStore(store.jobs[job].phase) ==> DecidedByStore(store'.jobs[job].phase))
      && (CommittedAt(store', job) == CommittedAt(store, job)
          || (CommittedAt(store, job).None? && CommittedAt(store', job) == Some(|store.log|)))
      && (CommittedAt(store, job).Some? ==> CommittedAt(store, job).value < |store.log|)
  {
    assert W.JobOk(store, job);
    W.JobStep(store, step, job);
    W.JobStepFrame(store, step, job);
    if step.Collect? {
      CollectIsNotBulk(store, step.job);
    }
    hide W.Next, W.Invariant, Concat;
  }

  lemma CollectIsNotBulk(store: W.State, j: nat)
    requires W.Invariant(store) && W.Enabled(store, W.Collect(j))
    ensures !store.jobs[j].kind.FromBulk?
  {
    assert W.JobOk(store, j);
  }

  lemma CallsUnderStore(codec: TimeCodec, s: System, step: W.Step, job: nat)
    requires Invariant(codec, s) && W.Enabled(s.store, step) && job in s.calls
    ensures
      var s' := s.(store := W.Next(s.store, step));
      && CallOk(codec, s', job)
      && (CommittedAt(s'.store, job) == CommittedAt(s.store, job)
          || (Running(s, job) && CommittedAt(s.store, job).None? && CommittedAt(s'.store, job) == Some(|s.store.log|)))
      && (CommittedAt(s.store, job).Some? ==> CommittedAt(s.store, job).value < |s.store.log|)
      && (!Running(s, job) && HasCommitted(s'.store, job) ==> s.published[s.calls[job]].time <= s.memory.lastTime)
  {
    assert CallOk(codec, s, job);
    StoreStepOnCall(s.store, step, job);
    hide W.Invariant, W.Next, W.Enabled, Contribution;
  }

  /** The call in progress commits a document newer than all committed before, behind
      them. */
  lemma OrderUnderStore(codec: TimeCodec, s: System, step: W.Step, j: nat, k: nat)
    requires Invariant(codec, s) && W.Enabled(s.store, step) && j in s.calls && k in s.calls && j < k
    ensures InOrder(W.Next(s.store, step), s.calls, j, k)
  {
    hide W.Invariant, W.Next, W.Enabled, Contribution, CommittedAt, ReplyOk, MemoryOk, IngestedOk, PollsOk;
    CallsUnderStore(codec, s, step, j);
    CallsUnderStore(codec, s, step, k);
    assert InOrder(s.store, s.calls, j, k);
    assert CallOk(codec, s, j) && CallOk(codec, s, k);
  }

  /** The store moves on; the client's calls stay in order. */
  lemma KeepStoreMove(codec: TimeCodec, s: System, s': System)
    requires Invariant(codec, s) && s' == s.(store := s'.store) && W.Invariant(s'.store)
    requires forall job | job in s.calls ::
               CallOk(codec, s', job) && (HasCommitted(s.store, job) ==> HasCommitted(s'.store, job))
    requires CommitsInOrder(s')
    ensures Invariant(codec, s')
  {
    hide W.Invariant, Contribution, HasCommitted, CallOk, IngestedOk, CommitsInOrder;
    IngestedKept(codec, s, s');
  }

  lemma KeepStore(codec: TimeCodec, s: System, step: W.Step)
    requires Invariant(codec, s) && W.Enabled(s.store, step)
    ensures Invariant(codec, s.(store := W.Next(s.store, step)))
  {
    var s' := s.(store := W.Next(s.store, step));
    assert W.Invariant(s.store);
    hide Invariant, W.Invariant, W.Next, W.Enabled, Contribution, HasCommitted, CallOk;
    W.StepKeepsInvariant(s.store, step);
    forall job | job in s.calls
      ensures CallOk(codec, s', job) && (HasCommitted(s.store, job) ==> HasCommitted(s'.store, job))
    {
      CallsUnderStore(codec, s, step, job);
    }
    forall j, k | j in s'.calls && k in s'.calls && j < k
      ensures InOrder(s'.store, s'.calls, j, k)
    {
      OrderUnderStore(codec, s, step, j, k);
    }
    KeepStoreMove(codec, s, s');
  }

  lemma StepKeepsInvariant(codec: TimeCodec, s: System, step: Step)
    requires GoodCodec(codec) && Invariant(codec, s) && Enabled(s, step)
    ensures Invariant(codec, Next(codec, s, step))
  {
    hide Invariant;
    match step
    case Stamp(_) => KeepPublish(codec, s, step);
    case Swap(_) => KeepPublish(codec, s, step);
    case FetchFails => KeepFetchFails(codec, s);
    case FetchReply => KeepFetchReply(codec, s);
    case Process => KeepProcess(codec, s);
    case Finish => KeepFinish(codec, s);
    case Store(step) => KeepStore(codec, s, step);
  }

  lemma {:induction false} RunKeepsInvariant(codec: TimeCodec, maxRetries: int, steps: seq<Step>)
    requires GoodCodec(codec)
    ensures
      match Execute(codec, Start(maxRetries), steps)
      case None => true
      case Some(s) => Invariant(codec, s)
  {
    if steps == [] {
      StartInvariant(codec, maxRetries);
    } else {
      RunKeepsInvariant(codec, maxRetries, steps[..|steps| - 1]);
      hide Invariant, Enabled, Next, GoodCodec;
      var before := Execute(codec, Start(maxRetries), steps[..|steps| - 1]);
      if before.Some? && Enabled(before.value, steps[|steps| - 1]) {
        StepKeepsInvariant(codec, before.value, steps[|steps| - 1]);
      }
    }
  }

  // ----- exactly once -----

  /** Chunk `c` of the database log was committed by a call carrying document `doc`. */
  predicate FromDocument(s: System, c: nat, doc: nat) {
    c < |s.store.log| && s.store.log[c].job in s.calls && s.calls[s.store.log[c].job] == doc
  }

  lemma ReachableInvariant(codec: TimeCodec, maxRetries: int, s: System)
    requires GoodCodec(codec) && Reachable(codec, maxRetries, s)
    ensures Invariant(codec, s)
  {
    var steps :| Execute(codec, Start(maxRetries), steps) == Some(s);
    RunKeepsInvariant(codec, maxRetries, steps);
  }

  /** A chunk of a document belongs to a committed call, and is what it carries. */
  lemma ChunkOfDocument(codec: TimeCodec, s: System, c: nat, doc: nat)
    requires Invariant(codec, s) && FromDocument(s, c, doc)
    ensures doc < |s.published| && s.store.log[c].records == Contribution(codec, s.published[doc].body)
    ensures s.store.log[c].job < |s.store.jobs| && W.ChunkOf(s.store.jobs[s.store.log[c].job].phase) == Some(c)
  {
    hide Contribution;
    var job := s.store.log[c].job;
    assert CallOk(codec, s, job);
    assert W.ChunkOk(s.store.log, s.store.jobs, c);
    var records := Contribution(codec, s.published[doc].body);
    assert [records][..0] == [] && Concat([records]) == records;
  }

  lemma InOrderAt(codec: TimeCodec, s: System, j: nat, k: nat)
    requires Invariant(codec, s) && j in s.calls && k in s.calls && j < k
    ensures InOrder(s.store, s.calls, j, k)
  {
    hide W.Invariant, InOrder, CallOk, IngestedOk;
  }

  lemma ChunksInOrder(codec: TimeCodec, s: System, c: nat, d: nat, e: nat, f: nat)
    requires Invariant(codec, s) && FromDocument(s, c, d) && FromDocument(s, e, f)
    ensures c < e <==> d < f
  {
    hide Invariant, Contribution, W.ChunkOf;
    ChunkOfDocument(codec, s, c, d);
    ChunkOfDocument(codec, s, e, f);
    var j, k := s.store.log[c].job, s.store.log[e].job;
    if j < k {
      InOrderAt(codec, s, j, k);
    } else if k < j {
      InOrderAt(codec, s, k, j);
    }
  }

  /** In every run a document's valid records enter the database log at most once:
      two chunks carrying it are the same chunk. */
  lemma AtMostOnce(codec: TimeCodec, maxRetries: int, s: System, doc: nat, c: nat, d: nat)
    requires GoodCodec(codec) && Reachable(codec, maxRetries, s)
    requires FromDocument(s, c, doc) && FromDocument(s, d, doc)
    ensures c == d
    ensures doc < |s.published| && s.store.log[c].records == Contribution(codec, s.published[doc].body)
  {
    ReachableInvariant(codec, maxRetries, s);
    hide Invariant, Contribution, FromDocument, Reachable;
    ChunkOfDocument(codec, s, c, doc);
    ChunksInOrder(codec, s, c, doc, d, doc);
    ChunksInOrder(codec, s, d, doc, c, doc);
  }

  /** Documents enter the log in the order of their publication. */
  lemma DocumentsInOrder(codec: TimeCodec, maxRetries: int, s: System, c: nat, d: nat, e: nat, f: nat)
    requires GoodCodec(codec) && Reachable(codec, maxRetries, s)
    requires FromDocument(s, c, d) && FromDocument(s, e, f)
    ensures c < e <==> d < f
  {
    ReachableInvariant(codec, maxRetries, s);
    hide Invariant, FromDocument, Reachable;
    ChunksInOrder(codec, s, c, d, e, f);
  }

  lemma CommittedChunk(codec: TimeCodec, s: System, job: nat)
    requires Invariant(codec, s) && job in s.calls && HasCommitted(s.store, job)
    ensures FromDocument(s, W.ChunkOf(s.store.jobs[job].phase).value, s.calls[job])
  {
    assert W.JobOk(s.store, job);
  }

  /** Unless a call carrying it is still in progress, a document has a chunk in the
      database log exactly if it has valid records and some poll carrying it succeeded. */
  lemma ExactlyOnceIffSucceeded(codec: TimeCodec, maxRetries: int, s: System, doc: nat)
    requires GoodCodec(codec) && Reachable(codec, maxRetries, s) && doc < |s.published|
    requires !(s.activity.Ingesting? && s.activity.doc == doc)
    ensures (exists c: nat :: FromDocument(s, c, doc)) <==>
              Contribution(codec, s.published[doc].body) != [] && doc in s.ingested
  {
    ReachableInvariant(codec, maxRetries, s);
    hide W.Invariant, Contribution, Reachable, FromDocument;
    forall c: nat | FromDocument(s, c, doc)
      ensures Contribution(codec, s.published[doc].body) != [] && doc in s.ingested
    {
      ChunkWasIngested(codec, s, c, doc);
    }
    if Contribution(codec, s.published[doc].body) != [] && doc in s.ingested {
      hide HasCommitted;
      var job :| job in s.calls && s.calls[job] == doc && HasCommitted(s.store, job);
      CommittedChunk(codec, s, job);
    }
  }

  lemma ChunkWasIngested(codec: TimeCodec, s: System, c: nat, doc: nat)
    requires Invariant(codec, s) && FromDocument(s, c, doc)
    requires !(s.activity.Ingesting? && s.activity.doc == doc)
    ensures doc < |s.published| && Contribution(codec, s.published[doc].body) != [] && doc in s.ingested
  {
    hide W.Invariant, Contribution;
    ChunkOfDocument(codec, s, c, doc);
    assert CallOk(codec, s, s.store.log[c].job);
  }

  /** No call of the client is ever cancelled: one that has returned has committed, or the
      database has refused every attempt it was allowed. */
  lemma CallsAreNotCancelled(codec: TimeCodec, maxRetries: int, s: System, job: nat)
    requires GoodCodec(codec) && Reachable(codec, maxRetries, s) && job in s.calls
    ensures job < |s.store.jobs|
    ensures s.store.jobs[job].phase.Finished? ==>
              s.store.jobs[job].phase.outcome.Committed? || s.store.jobs[job].phase.outcome.Exhausted?
  {
    ReachableInvariant(codec, maxRetries, s);
    hide Reachable, Invariant, Contribution;
    KnownCall(codec, s, job);
  }

  /** The rows of a chunk are one contiguous block of the database. */
  lemma {:induction false} ChunkIsBlock(log: seq<W.Chunk>, c: nat)
    requires c < |log|
    ensures exists before, after :: WriteCounters.Rows(log) == before + log[c].records + after
  {
    var n := |log| - 1;
    if c < n {
      ChunkIsBlock(log[..n], c);
      var before, after :| WriteCounters.Rows(log[..n]) == before + log[c].records + after;
      assert WriteCounters.Rows(log) == before + log[c].records + (after + log[n].records);
    } else {
      assert WriteCounters.Rows(log) == WriteCounters.Rows(log[..n]) + log[c].records + [];
    }
  }

  // ----- wrongly skipped documents -----

  /** The poll in progress is about to skip a document newer than the last one
      ingested. */
  predicate WronglySkips(codec: TimeCodec, s: System) {
    && s.activity.Deciding? && s.activity.doc < |s.published|
    && Decide(codec, s.memory, s.activity.reply).Skip?
    && s.memory.lastTime < s.published[s.activity.doc].time
  }

  /** The last success carried the previous document under this one's generation ID,
      because it was fetched between the two steps of publishing. */
  predicate StampedEarly(s: System) {
    && s.activity.Deciding? && s.activity.doc < |s.published|
    && s.last.Some? && s.last.value.doc + 1 == s.activity.doc
    && s.last.value.stamp == s.published[s.activity.doc].time
    && s.activity.stamp == s.published[s.activity.doc].time
  }

  /** A reply is skipped if it repeats the generation of the last success, or its
      document is not newer. */
  lemma SkipWhen(codec: TimeCodec, s: System, reply: Response, doc: nat, stamp: Time)
    requires GoodCodec(codec) && PublishedOk(s) && ReplyOk(codec, s, reply, doc, stamp) && MemoryOk(s)
    ensures Decide(codec, s.memory, reply).Skip? <==>
              (s.last.Some? && s.last.value.stamp == stamp) || s.published[doc].time <= s.memory.lastTime
  {
    ReplyTimestamp(codec, s, reply, doc, stamp);
    GenerationNameInjective(stamp, stamp);
    if s.last.Some? {
      GenerationNameInjective(stamp, s.last.value.stamp);
    }
    hide DataTimestamp, GenerationName, ParsedDocument, GoodCodec;
  }

  /** Equal generations of different documents: the older one was stamped early. */
  lemma SameStamp(s: System, earlier: nat, doc: nat, earlierStamp: Time, stamp: Time)
    requires PublishedOk(s) && OriginOk(s, earlier, earlierStamp) && OriginOk(s, doc, stamp)
    ensures earlierStamp == stamp && s.published[earlier].time < s.published[doc].time <==>
              earlier + 1 == doc && earlierStamp == s.published[doc].time && stamp == s.published[doc].time
  {
  }

  lemma WrongSkipCases(codec: TimeCodec, s: System, reply: Response, doc: nat, stamp: Time)
    requires GoodCodec(codec) && PublishedOk(s) && MemoryOk(s)
    requires s.activity == Deciding(reply, doc, stamp) && ReplyOk(codec, s, reply, doc, stamp)
    ensures WronglySkips(codec, s) <==> StampedEarly(s)
  {
    SkipWhen(codec, s, reply, doc, stamp);
    if s.last.Some? {
      SameStamp(s, s.last.value.doc, doc, s.last.value.stamp, stamp);
    }
    hide Decide, GenerationName, GoodCodec, PublishedOk, OriginOk;
  }

  /** Skipping is wrong in exactly one situation: the document's generation ID was
      already used up by the previous document. */
  lemma WrongSkipIffStampedEarly(codec: TimeCodec, maxRetries: int, s: System)
    requires GoodCodec(codec) && Reachable(codec, maxRetries, s)
    ensures WronglySkips(codec, s) <==> StampedEarly(s)
  {
    hide Reachable;
    ReachableInvariant(codec, maxRetries, s);
    if s.activity.Deciding? {
      hide W.Invariant, CallOk, Decide, IngestedOk, CommitsInOrder, GoodCodec, PublishedOk, MemoryOk, ReplyOk,
        WronglySkips, StampedEarly;
      WrongSkipCases(codec, s, s.activity.reply, s.activity.doc, s.activity.stamp);
    }
  }

  /** If the last success was fetched outside the publishing window, nothing newer
      is skipped. */
  lemma NoWrongSkip(codec: TimeCodec, maxRetries: int, s: System)
    requires GoodCodec(codec) && Reachable(codec, maxRetries, s)
    requires s.last.Some? ==>
               s.last.value.doc < |s.published| && s.last.value.stamp == s.published[s.last.value.doc].time
    ensures !WronglySkips(codec, s)
  {
    WrongSkipIffStampedEarly(codec, maxRetries, s);
    ReachableInvariant(codec, maxRetries, s);
    hide W.Invariant, CallOk, WronglySkips, IngestedOk, CommitsInOrder;
  }

  /** A client that fetches between the two steps of the second publication: the
      reply pairs the first document with the second one's generation. */
  lemma EarlyFetch(codec: TimeCodec, maxRetries: int, t1: Time, t2: Time, body: string)
    requires 0 < t1 < t2 && Printable(t2) && body != ""
    ensures
      var reply := Response(GenerationName(t2), codec.format(t1), body);
      var s := Start(maxRetries).(
        published := [Document(t1, body)], stamp := t2, memory := Begin(FRESH), activity := Deciding(reply, 0, t2));
      Execute(codec, Start(maxRetries), [] + [Stamp(t1)] + [Swap(body)] + [Stamp(t2)] + [FetchReply]) == Some(s)
  {
    hide W.Next, W.Enabled, GenerationName;
    var s0 := Start(maxRetries);
    var s1 := s0.(stamp := t1);
    var s2 := s1.(published := [Document(t1, body)]);
    var s3 := s2.(stamp := t2);
    assert Enabled(s0, Stamp(t1)) && Next(codec, s0, Stamp(t1)) == s1;
    assert Enabled(s1, Swap(body)) && Next(codec, s1, Swap(body)) == s2;
    assert Enabled(s2, Stamp(t2)) && Next(codec, s2, Stamp(t2)) == s3;
    assert Enabled(s3, FetchReply);
    ExecuteOneMore(codec, s0, [], s0, Stamp(t1));
    ExecuteOneMore(codec, s0, [] + [Stamp(t1)], s1, Swap(body));
    ExecuteOneMore(codec, s0, [] + [Stamp(t1)] + [Swap(body)], s2, Stamp(t2));
    ExecuteOneMore(codec, s0, [] + [Stamp(t1)] + [Swap(body)] + [Stamp(t2)], s3, FetchReply);
  }

  /** A client that remembers nothing ingests whatever it is offered. */
  lemma FreshDecision(codec: TimeCodec, m: Memory, reply: Response)
    requires m.lastId == "" && m.lastTime == ZERO_TIME && ZERO_TIME < DataTimestamp(codec, reply)
    requires Contribution(codec, reply.body) != []
    ensures Decide(codec, m, reply).Ingest?
    ensures ValidRecords(Decide(codec, m, reply).data) == Contribution(codec, reply.body)
    ensures Decide(codec, m, reply).data != []
  {
    hide DataTimestamp, ParsedDocument;
    assert ValidRecords([]) == [];
  }

  lemma FreshClientIngests(codec: TimeCodec, s: System, reply: Response, doc: nat, stamp: Time)
    requires s.activity == Deciding(reply, doc, stamp) && ZERO_TIME < DataTimestamp(codec, reply)
    requires s.memory.lastId == "" && s.memory.lastTime == ZERO_TIME && Contribution(codec, reply.body) != []
    ensures ProcessReply(codec, s) == StartBulkCall(s, reply, doc, stamp, Contribution(codec, reply.body))
  {
    hide Next;
    FreshDecision(codec, s.memory, reply);
    hide GenerationName, DataTimestamp, ValidRecords, W.Next, W.Enabled, Decide, Contribution, StartBulkCall;
  }

  /** An otherwise idle store commits the call at once, and the poll succeeds. */
  lemma CallSucceeds(codec: TimeCodec, s: System, reply: Response, doc: nat, stamp: Time, records: seq<TelemetryData>)
    requires s.store == W.Init(s.store.maxRetries) && s.store.maxRetries >= 1 && records != []
    ensures
      var u := StartBulkCall(s, reply, doc, stamp, records);
      match Execute(codec, u, COMMIT)
      case None => false
      case Some(t) =>
        && t.published == s.published && t.stamp == s.stamp && t.activity.Idle? && t.last == Some(Origin(doc, stamp))
        && doc in t.ingested
  {
    var u := StartBulkCall(s, reply, doc, stamp, records);
    var commit := [W.Check(0)] + [W.StoreOk(0)] + [W.Credit(0)];
    assert |u.store.jobs| == 1 && u.store.jobs[0].phase == W.Looping(1) && u.store.jobs[0].ctx == W.Background;
    assert u.store.worker == W.Selecting && u.store.maxRetries >= 1;
    WriteCounters.CommitRun(u.store, 0);
    var store := WriteCounters.CommittedBy(u.store, 0);
    assert store.jobs[0].phase.Finished? && store.jobs[0].phase.outcome.Committed?;
    hide W.Next, W.Enabled, W.Execute, DataTimestamp, WriteCounters.CommittedBy;
    StoreRun(codec, u, commit, store);
    ExecuteOneMore(codec, u, Lift(commit), u.(store := store), Finish);
  }

  const COMMIT: seq<Step> := Lift([W.Check(0)] + [W.StoreOk(0)] + [W.Credit(0)]) + [Finish]

  /** It ingests the first document and remembers the second one's generation. */
  lemma EarlyIngest(codec: TimeCodec, s: System, reply: Response, doc: nat, stamp: Time) returns (t: System)
    requires s.activity == Deciding(reply, doc, stamp) && ZERO_TIME < DataTimestamp(codec, reply)
    requires s.memory.lastId == "" && s.memory.lastTime == ZERO_TIME && s.store == W.Init(s.store.maxRetries)
    requires s.store.maxRetries >= 1 && Contribution(codec, reply.body) != []
    ensures Execute(codec, s, ([] + [Process]) + COMMIT) == Some(t)
    ensures t.published == s.published && t.stamp == s.stamp && t.activity.Idle? && t.last == Some(Origin(doc, stamp))
    ensures doc in t.ingested
  {
    assert Enabled(s, Process) && Next(codec, s, Process) == ProcessReply(codec, s) by {
      hide ProcessReply, DataTimestamp, Contribution, Execute, W.Init;
    }
    hide Enabled, Next, ProcessReply, W.Init, StartBulkCall, Contribution, Execute, DataTimestamp;
    var records := Contribution(codec, reply.body);
    FreshClientIngests(codec, s, reply, doc, stamp);
    CallSucceeds(codec, s, reply, doc, stamp, records);
    var u := StartBulkCall(s, reply, doc, stamp, records);
    ExecuteNothing(codec, s);
    ExecuteOneMore(codec, s, [], s, Process);
    t := Execute(codec, u, COMMIT).value;
    ExecuteThen(codec, s, [] + [Process], u, COMMIT);
  }

  lemma ExecuteNothing(codec: TimeCodec, s: System)
    ensures Execute(codec, s, []) == Some(s)
  {
  }

  /** Once the second document is swapped in, its own reply looks like a repetition. */
  lemma LateFetch(codec: TimeCodec, t: System, second: string) returns (v: System)
    requires |t.published| == 1 && t.stamp != t.published[0].time && t.activity.Idle? && second != ""
    requires t.last == Some(Origin(0, t.stamp))
    ensures Execute(codec, t, [] + [Swap(second)] + [FetchReply]) == Some(v) && StampedEarly(v)
    ensures v.published == t.published + [Document(t.stamp, second)] && v.ingested == t.ingested
    ensures v.activity.Deciding? && v.activity.doc == 1
  {
    hide W.Next, W.Enabled, GenerationName;
    var u := t.(published := t.published + [Document(t.stamp, second)]);
    assert Enabled(t, Swap(second)) && Next(codec, t, Swap(second)) == u && Enabled(u, FetchReply);
    ExecuteOneMore(codec, t, [], t, Swap(second));
    ExecuteOneMore(codec, t, [] + [Swap(second)], u, FetchReply);
    v := Next(codec, u, FetchReply);
  }

  /** The early reply carries the first document's time in its header. */
  lemma EarlyTimestamp(codec: TimeCodec, t1: Time, t2: Time, body: string)
    requires GoodCodec(codec) && 0 < t1 < t2 && Printable(t2)
    ensures DataTimestamp(codec, Response(GenerationName(t2), codec.format(t1), body)) == t1
  {
    hide ExtractFirstTimestamp, GenerationName;
  }

  /** So a document can be lost: some run publishes and ingests the first document and is
      about to skip the second although it is newer. */
  lemma WrongSkipHappens(codec: TimeCodec, maxRetries: int, t1: Time, t2: Time, first: string, second: string)
    requires GoodCodec(codec) && maxRetries >= 1 && 0 < t1 < t2 && Printable(t2)
    requires first != "" && second != "" && Contribution(codec, first) != []
    ensures exists s ::
              && Reachable(codec, maxRetries, s) && WronglySkips(codec, s)
              && s.published == [Document(t1, first), Document(t2, second)]
              && 0 in s.ingested && s.activity.Deciding? && s.activity.doc == 1
  {
    hide Execute, Contribution, Next, Enabled, StampedEarly, WronglySkips, GoodCodec, GenerationName, DataTimestamp,
      Reachable;
    var early := [] + [Stamp(t1)] + [Swap(first)] + [Stamp(t2)] + [FetchReply];
    var reply := Response(GenerationName(t2), codec.format(t1), first);
    var s := Start(maxRetries).(
      published := [Document(t1, first)], stamp := t2, memory := Begin(FRESH), activity := Deciding(reply, 0, t2));
    EarlyFetch(codec, maxRetries, t1, t2, first);
    EarlyTimestamp(codec, t1, t2, first);
    var t := EarlyIngest(codec, s, reply, 0, t2);
    var v := LateFetch(codec, t, second);
    var late := [] + [Swap(second)] + [FetchReply];
    var ingest := ([] + [Process]) + COMMIT;
    ExecuteThen(codec, Start(maxRetries), early, s, ingest);
    ExecuteThen(codec, Start(maxRetries), early + ingest, t, late);
    ReachedBy(codec, maxRetries, early + ingest + late, v);
    assert v.published == [Document(t1, first), Document(t2, second)];
    WrongSkipIffStampedEarly(codec, maxRetries, v);
  }

  lemma ReachedBy(codec: TimeCodec, maxRetries: int, steps: seq<Step>, s: System)
    requires Execute(codec, Start(maxRetries), steps) == Some(s)
    ensures Reachable(codec, maxRetries, s)
  {
  }

  // ----- poll accounting -----

  /** In every run: each poll that has ended could end as it did, given those before it;
      each counter is the number of polls that ended its way; every success was with a
      document of its own; and the polls begun are those that have ended and the one in
      progress. */
  lemma PollsAccounted(codec: TimeCodec, maxRetries: int, s: System)
    requires GoodCodec(codec) && Reachable(codec, maxRetries, s)
    ensures IsPollRun(codec, s.polls)
    ensures
      var c := s.memory.counts;
      && c.errors == Tally(s.polls, Errored) && c.duplicate == Tally(s.polls, Skipped)
      && c.successful == Tally(s.polls, Succeeded) == |s.ingested|
      && c.successful + c.duplicate + c.errors == |s.polls|
      && c.total == |s.polls| + if s.activity.Idle? then 0 else 1
  {
    ReachableInvariant(codec, maxRetries, s);
    assert PollsOk(codec, s) && IngestedOnce(s);
    hide Reachable, Invariant, IsPollRun, AfterPolls, Decide, ValidRecords;
    PollsBalance(s.polls);
  }
}
