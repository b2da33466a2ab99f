/** What a generated document becomes at the client: it parses back to its rows, its
    timestamp is found with or without the header, and it registers every switch of
    the generator once. */
module Pipeline {
  import opened Models
  import opened Decimal
  import opened Csv
  import opened Generator
  import opened Service
  import opened Cache
  import opened Client
  import opened Reads
  import EndToEnd

  /** The document drawn at `now`, as it is published. */
  function Body(codec: TimeCodec, now: Time, counts: seq<nat>, draws: seq<real>): string
    requires 6 * Sum(counts) <= |draws|
  {
    RenderDocument(codec, DocumentRows(now, counts, draws))
  }

  /** A draw the generator can make, early enough for its last message to be printed
      with a four-digit year. */
  predicate Drawable(now: Time, counts: seq<nat>, draws: seq<real>) {
    && MessageCounts(counts) && 6 * Sum(counts) <= |draws| && UnitDraws(draws)
    && 0 <= now && now + Horizon(|counts|) < TIME_LIMIT
  }

  /** `switch-001` up to the given number. */
  function SwitchNames(n: nat): (names: seq<string>)
    ensures |names| == n
    ensures forall i :: 0 <= i < n ==> names[i] == SwitchName(i + 1)
  {
    seq(n, i requires 0 <= i < n => SwitchName(i + 1))
  }

  // ----- timestamps -----

  /** A document's time is its header's; without the header it is found in the first
      row, unless the document has no rows. */
  lemma TimestampWithAndWithoutHeader(
    codec: TimeCodec, now: Time, counts: seq<nat>, draws: seq<real>, id: string)
    requires GoodCodec(codec) && Drawable(now, counts, draws)
    ensures
      var body := Body(codec, now, counts, draws);
      && DataTimestamp(codec, Response(id, codec.format(now), body)) == now
      && DataTimestamp(codec, Response(id, "", body)) == if counts == [] then ZERO_TIME else now
  {
    var rows := DocumentRows(now, counts, draws);
    DocumentGood(now, counts, draws, |counts|);
    FirstTimestamp(codec, rows);
    if counts != [] {
      FirstRowAtNow(now, counts, draws);
    }
    BodyNotEmpty(codec, now, counts, draws);
    assert codec.parse(codec.format(now)) == Some(now);
    hide DocumentRows, RenderDocument, ExtractFirstTimestamp, Horizon, GoodCodec, MessageCounts, GoodRow;
  }

  lemma BodyNotEmpty(codec: TimeCodec, now: Time, counts: seq<nat>, draws: seq<real>)
    requires 6 * Sum(counts) <= |draws|
    ensures Body(codec, now, counts, draws) != ""
  {
    hide RenderRows, DocumentRows, HeaderLine;
  }

  /** A header that is missing, that cannot be read, or that shows the zero instant. */
  predicate NoTimestamp(codec: TimeCodec, header: string) {
    header == "" || codec.parse(header) == None || codec.parse(header) == Some(ZERO_TIME)
  }

  lemma UnreadableHeader(codec: TimeCodec, id: string, header: string, body: string)
    requires NoTimestamp(codec, header)
    ensures DataTimestamp(codec, Response(id, header, body)) == DataTimestamp(codec, Response(id, "", body))
  {
    hide ExtractFirstTimestamp;
  }

  /** For every generated document with a switch, deduplication and everything after it
      decide the same whether the header was sent, was not sent, or arrived unreadable, in
      every client state. */
  lemma TimestampFallbackAgrees(
    codec: TimeCodec, m: Memory, now: Time, counts: seq<nat>, draws: seq<real>, id: string, header: string)
    requires GoodCodec(codec) && Drawable(now, counts, draws) && counts != [] && NoTimestamp(codec, header)
    ensures
      var body := Body(codec, now, counts, draws);
      Decide(codec, m, Response(id, codec.format(now), body)) == Decide(codec, m, Response(id, header, body))
  {
    var body := Body(codec, now, counts, draws);
    TimestampWithAndWithoutHeader(codec, now, counts, draws, id);
    UnreadableHeader(codec, id, header, body);
    hide DataTimestamp, ParsedDocument, Body, Drawable, GoodCodec, Decide, NoTimestamp;
    SameDecision(codec, m, Response(id, codec.format(now), body), Response(id, header, body));
  }

  /** Only the timestamp matters of how it was sent. */
  lemma SameDecision(codec: TimeCodec, m: Memory, r: Response, q: Response)
    requires r.generationId == q.generationId && r.body == q.body && DataTimestamp(codec, r) == DataTimestamp(codec, q)
    ensures Decide(codec, m, r) == Decide(codec, m, q)
  {
  }

  /** A generator without switches is the exception: some client state skips its
      document with the header and not without. */
  lemma NoSwitchesNoFallback(codec: TimeCodec, now: Time, id: string)
    requires GoodCodec(codec) && 0 < now && now + Horizon(0) < TIME_LIMIT && id != ""
    ensures
      var m := FRESH.(lastTime := now);
      var body := Body(codec, now, [], []);
      && Decide(codec, m, Response(id, codec.format(now), body)).Skip?
      && !Decide(codec, m, Response(id, "", body)).Skip?
  {
    TimestampWithAndWithoutHeader(codec, now, [], [], id);
    hide DataTimestamp, ParsedDocument, Body, Drawable, GoodCodec;
  }

  // ----- contents -----

  /** A block of records of one switch adds that switch, unless it was there. */
  lemma {:induction false} DistinctIdsBlock(data: seq<TelemetryData>, block: seq<TelemetryData>, id: string)
    requires block != [] && id != "" && forall m | m in block :: m.switchId == id
    ensures DistinctIds(data + block)
         == if id in DistinctIds(data) then DistinctIds(data) else DistinctIds(data) + [id]
  {
    var n := |block| - 1;
    assert (data + block)[..|data| + n] == data + block[..n];
    assert block[n] in block;
    if n == 0 {
      assert data + block[..n] == data;
    } else {
      DistinctIdsBlock(data, block[..n], id);
    }
  }

  lemma NamesDiffer(n: nat)
    ensures SwitchName(n + 1) !in SwitchNames(n) && SwitchNames(n + 1) == SwitchNames(n) + [SwitchName(n + 1)]
    ensures SwitchName(n + 1) != ""
  {
    hide SwitchName;
    SwitchNameInjective(n + 1, n + 1);
    forall i: nat | i < n
      ensures SwitchNames(n)[i] != SwitchName(n + 1)
    {
      SwitchNameInjective(i + 1, n + 1);
    }
  }

  /** A generated document names exactly the generator's switches, in order, however
      many messages each of them sent. */
  lemma {:induction false} DocumentSwitches(now: Time, counts: seq<nat>, draws: seq<real>)
    requires MessageCounts(counts) && 6 * Sum(counts) <= |draws|
    ensures DistinctIds(RowsData(DocumentRows(now, counts, draws))) == SwitchNames(|counts|)
  {
    hide SwitchName, DrawRow, RowData, SwitchRows;
    if counts != [] {
      var n := |counts| - 1;
      DocumentSwitches(now, counts[..n], draws);
      var before := DocumentRows(now, counts[..n], draws);
      var rows := SwitchRows(now, n + 1, counts[n], draws, 6 * Sum(counts[..n]));
      assert RowsData(before + rows) == RowsData(before) + RowsData(rows);
      BlockOfSwitch(now, n + 1, counts[n], draws, 6 * Sum(counts[..n]));
      NamesDiffer(n);
      DistinctIdsBlock(RowsData(before), RowsData(rows), SwitchName(n + 1));
    }
  }

  lemma BlockOfSwitch(now: Time, i: nat, count: nat, draws: seq<real>, at: nat)
    requires at + 6 * count <= |draws|
    ensures forall m | m in RowsData(SwitchRows(now, i, count, draws, at)) :: m.switchId == SwitchName(i)
  {
    hide SwitchName, Round, StaggerMs;
    forall j: nat | j < count
      ensures RowsData(SwitchRows(now, i, count, draws, at))[j].switchId == SwitchName(i)
    {
    }
  }

  lemma {:induction false} NoUnnamedRows(now: Time, counts: seq<nat>, draws: seq<real>)
    requires 6 * Sum(counts) <= |draws|
    ensures forall m | m in RowsData(DocumentRows(now, counts, draws)) :: m.switchId != ""
  {
    hide SwitchName, DrawRow;
    if counts != [] {
      var n := |counts| - 1;
      NoUnnamedRows(now, counts[..n], draws);
      var before := DocumentRows(now, counts[..n], draws);
      var rows := SwitchRows(now, n + 1, counts[n], draws, 6 * Sum(counts[..n]));
      assert RowsData(before + rows) == RowsData(before) + RowsData(rows);
      BlockOfSwitch(now, n + 1, counts[n], draws, 6 * Sum(counts[..n]));
      SwitchNameInjective(n + 1, n + 1);
    }
  }

  /** From the generator's draw to the database call: every row arrives, unchanged
      and in order, and registering it registers each switch once. */
  lemma DocumentArrives(codec: TimeCodec, now: Time, counts: seq<nat>, draws: seq<real>)
    requires GoodCodec(codec) && Drawable(now, counts, draws) && counts != []
    ensures
      var data := RowsData(DocumentRows(now, counts, draws));
      && ParsedDocument(codec, Body(codec, now, counts, draws)) == Ok(data)
      && EndToEnd.Contribution(codec, Body(codec, now, counts, draws)) == data
      && DistinctIds(data) == SwitchNames(|counts|)
  {
    var rows := DocumentRows(now, counts, draws);
    DocumentGood(now, counts, draws, |counts|);
    FirstRowAtNow(now, counts, draws);
    CsvRoundTrip(codec, rows);
    NoUnnamedRows(now, counts, draws);
    ValidRecordsKept(RowsData(rows));
    DocumentSwitches(now, counts, draws);
    hide DocumentRows, RenderDocument, GoodCodec, MessageCounts, ParsedDocument, GoodRow, DistinctIds, ValidRecords;
  }

  // ----- what is served of a document -----

  /** The value shows what the text of a column says. */
  predicate ShowsNumber(text: string, value: Value) {
    match value
    case Float(x) => ParseFloat(text) == Some(x)
    case Int(n) => ParseInt(text) == Some(n)
    case Text(_) => false
  }

  ghost predicate ShowsInstant(codec: TimeCodec, text: string, clock: Time -> string, value: Value) {
    exists t: Time :: codec.parse(text) == Some(t) && value == Text(clock(t))
  }

  /** A document's columns are, in order, the entries of the response map: each one
      serves under its name what was printed below that name. */
  lemma ColumnsAreServed(codec: TimeCodec, row: Row, clock: Time -> string)
    requires GoodCodec(codec) && GoodRow(row)
    ensures
      var fields, served := RowFields(codec, row), ToMap(RowData(row), clock);
      && |HEADER| == 7 && served.Keys == set name | name in HEADER
      && served[HEADER[0]] == Text(fields[0])
      && ShowsInstant(codec, fields[1], clock, served[HEADER[1]])
      && ShowsNumber(fields[2], served[HEADER[2]]) && ShowsNumber(fields[3], served[HEADER[3]])
      && ShowsNumber(fields[4], served[HEADER[4]]) && served[HEADER[4]].Int?
      && ShowsNumber(fields[5], served[HEADER[5]]) && ShowsNumber(fields[6], served[HEADER[6]])
  {
    hide *;
    RowParses(codec, row);
    FieldsShow(codec, RowFields(codec, row), RowData(row), clock);
    ServedByName(RowData(row), clock);
  }

  /** The fields of a record show what is read from them. */
  lemma FieldsShow(codec: TimeCodec, fields: seq<string>, td: TelemetryData, clock: Time -> string)
    requires |fields| >= 7 && ParseRecord(codec, fields) == Some(td)
    ensures fields[0] == td.switchId && ShowsInstant(codec, fields[1], clock, Text(clock(td.timestamp)))
    ensures ShowsNumber(fields[2], Float(td.bandwidthMbps)) && ShowsNumber(fields[3], Float(td.latencyMs))
    ensures ShowsNumber(fields[4], Int(td.packetErrors))
    ensures ShowsNumber(fields[5], Float(td.utilizationPct)) && ShowsNumber(fields[6], Float(td.temperatureC))
  {
    hide ParseFloat, ParseInt;
  }

  lemma ServedByName(td: TelemetryData, clock: Time -> string)
    ensures |HEADER| == 7 && ToMap(td, clock).Keys == set name | name in HEADER
    ensures ToMap(td, clock)[HEADER[0]] == Text(td.switchId)
    ensures ToMap(td, clock)[HEADER[1]] == Text(clock(td.timestamp))
    ensures ToMap(td, clock)[HEADER[2]] == Float(td.bandwidthMbps)
    ensures ToMap(td, clock)[HEADER[3]] == Float(td.latencyMs)
    ensures ToMap(td, clock)[HEADER[4]] == Int(td.packetErrors)
    ensures ToMap(td, clock)[HEADER[5]] == Float(td.utilizationPct)
    ensures ToMap(td, clock)[HEADER[6]] == Float(td.temperatureC)
  {
    forall metric | metric in METRICS
      ensures metric in ToMap(td, clock) && Ok(ToMap(td, clock)[metric]) == GetMetricValue(td, metric)
    {
      MetricViewsAgree(td, metric, clock);
    }
    MetricViewsAgree(td, METRIC_BANDWIDTH, clock);
    MapNames(td, clock);
    DistinctMetrics();
    hide ToMap;
  }

  /** The position of the last message of switch `i` in a document. */
  function LastAt(counts: seq<nat>, i: nat): (r: nat)
    requires MessageCounts(counts) && 1 <= i <= |counts|
    ensures r + 1 == Sum(counts[..i]) == Sum(counts[..i - 1]) + counts[i - 1] <= Sum(counts)
  {
    PrefixSums(counts, i, |counts|);
    assert counts[..|counts|] == counts;
    Sum(counts[..i]) - 1
  }

  /** The last record of a block of one switch. */
  lemma LastOfBlock(now: Time, i: nat, count: nat, draws: seq<real>, at: nat)
    requires at + 6 * count <= |draws| && count >= 1
    ensures LastPerSwitch(RowsData(SwitchRows(now, i, count, draws, at)))
         == map[SwitchName(i) := RowData(SwitchRows(now, i, count, draws, at)[count - 1])]
  {
    BlockOfSwitch(now, i, count, draws, at);
    hide *;
    LastOfOne(RowsData(SwitchRows(now, i, count, draws, at)), SwitchName(i));
  }

  lemma LastOfOne(data: seq<TelemetryData>, id: string)
    requires data != [] && forall m | m in data :: m.switchId == id
    ensures LastPerSwitch(data) == map[id := data[|data| - 1]]
  {
    var n := |data| - 1;
    assert data[n] in data && LastPerSwitch(data) == LastPerSwitch(data[..n])[id := data[n]];
    hide LastPerSwitch;
    forall k | k in LastPerSwitch(data)
      ensures k == id
    {
      LastPerSwitchIsLast(data, k);
    }
  }

  /** The last records once one more switch is drawn. */
  lemma ByNameStep(now: Time, counts: seq<nat>, draws: seq<real>, n: nat)
    requires MessageCounts(counts) && 1 <= n <= |counts|
    requires 6 * Sum(counts[..n]) <= |draws| && 6 * Sum(counts[..n - 1]) <= |draws|
    ensures Sum(counts[..n]) >= 1
    ensures LastPerSwitch(RowsData(DocumentRows(now, counts[..n], draws)))
         == LastPerSwitch(RowsData(DocumentRows(now, counts[..n - 1], draws)))[
              SwitchName(n) := RowData(DocumentRows(now, counts[..n], draws)[Sum(counts[..n]) - 1])]
  {
    DocumentRowsStep(now, counts, draws, n);
    assert counts[n - 1] >= 1;
    hide SwitchName, DrawRow, RowData, DocumentRows, Sum, LastPerSwitch, MessageCounts;
    var before := DocumentRows(now, counts[..n - 1], draws);
    var rows := SwitchRows(now, n, counts[n - 1], draws, 6 * Sum(counts[..n - 1]));
    LastOfBlock(now, n, counts[n - 1], draws, 6 * Sum(counts[..n - 1]));
    hide SwitchRows;
    ByNameAppend(before, rows, SwitchName(n));
  }

  lemma ByNameAppend(before: seq<Row>, rows: seq<Row>, id: string)
    requires rows != [] && LastPerSwitch(RowsData(rows)) == map[id := RowData(rows[|rows| - 1])]
    ensures LastPerSwitch(RowsData(before + rows))
         == LastPerSwitch(RowsData(before))[id := RowData((before + rows)[|before + rows| - 1])]
  {
    hide RowData, LastPerSwitch;
    assert RowsData(before + rows) == RowsData(before) + RowsData(rows);
    LastPerSwitchAppend(RowsData(before), RowsData(rows));
  }

  /** Drawing further switches leaves the last record of switch `i` as it is. */
  lemma {:induction false} LastStays(
    now: Time, counts: seq<nat>, draws: seq<real>, i: nat, n: nat, last: TelemetryData)
    requires MessageCounts(counts) && 1 <= i <= n <= |counts|
    requires forall k :: i <= k <= n ==> 6 * Sum(counts[..k]) <= |draws|
    requires
      var byName := LastPerSwitch(RowsData(DocumentRows(now, counts[..i], draws)));
      SwitchName(i) in byName && byName[SwitchName(i)] == last
    ensures
      var byName := LastPerSwitch(RowsData(DocumentRows(now, counts[..n], draws)));
      SwitchName(i) in byName && byName[SwitchName(i)] == last
    decreases n
  {
    hide SwitchName, DocumentRows, Sum, LastPerSwitch, MessageCounts;
    if i < n {
      LastStays(now, counts, draws, i, n - 1, last);
      ByNameStep(now, counts, draws, n);
      SwitchNameInjective(i, n);
    }
  }

  lemma LastOfDocument(now: Time, counts: seq<nat>, draws: seq<real>, i: nat)
    requires MessageCounts(counts) && 6 * Sum(counts) <= |draws| && 1 <= i <= |counts|
    ensures
      var byName := LastPerSwitch(RowsData(DocumentRows(now, counts, draws)));
      SwitchName(i) in byName && byName[SwitchName(i)] == RowData(DocumentRows(now, counts, draws)[LastAt(counts, i)])
  {
    var n := |counts|;
    assert counts[..n] == counts;
    hide SwitchName, DocumentRows, Sum, LastPerSwitch, RowData, MessageCounts, LastAt;
    forall k | 1 <= k <= n
      ensures Sum(counts[..k - 1]) <= Sum(counts[..k]) <= Sum(counts)
    {
      PrefixSums(counts, k, n);
    }
    ByNameStep(now, counts, draws, i);
    LastRowStays(now, counts, draws, i);
    LastStays(now, counts, draws, i, n, RowData(DocumentRows(now, counts, draws)[LastAt(counts, i)]));
  }

  lemma LastRowStays(now: Time, counts: seq<nat>, draws: seq<real>, i: nat)
    requires MessageCounts(counts) && 6 * Sum(counts) <= |draws| && 1 <= i <= |counts|
    ensures Sum(counts[..i]) <= Sum(counts)
    ensures DocumentRows(now, counts, draws)[LastAt(counts, i)]
         == DocumentRows(now, counts[..i], draws)[Sum(counts[..i]) - 1]
  {
    hide DocumentRows, Sum, MessageCounts, LastAt;
    var n, r := |counts|, LastAt(counts, i);
    assert counts[..n] == counts;
    RowStays(now, counts, draws, i, n, r, DocumentRows(now, counts[..i], draws)[r]);
  }

  /** From the draw to the read: once a poll has ingested a document, every read of a
      switch returns its last message, which follows its own six draws, and whose values
      are those printed in its line, column by column. */
  lemma DocumentIsServed(
    codec: TimeCodec, now: Time, counts: seq<nat>, draws: seq<real>, i: nat, c: Entries, arrival: Time,
    clock: Time -> string)
    requires GoodCodec(codec) && Drawable(now, counts, draws) && 0 < now && 1 <= i <= |counts|
    ensures
      var r := LastAt(counts, i);
      var last := DocumentRows(now, counts, draws)[r];
      var filed := PutEach(c, EndToEnd.Contribution(codec, Body(codec, now, counts, draws)), arrival);
      && SwitchMetrics(filed, SwitchName(i), clock)
         == Ok(MetricsListResponse(SwitchName(i), ToMap(RowData(last), clock), last.timestamp))
      && GoodRow(last) && FollowsDraws(last, now, i, counts[i - 1] - 1, draws, 6 * r)
  {
    assert MessageCounts(counts) && 6 * Sum(counts) <= |draws|;
    hide *;
    LastIsGood(now, counts, draws, i);
    LastFollows(now, counts, draws, i);
    LastFiled(codec, now, counts, draws, i, c, arrival, clock);
  }

  lemma LastIsGood(now: Time, counts: seq<nat>, draws: seq<real>, i: nat)
    requires Drawable(now, counts, draws) && 1 <= i <= |counts|
    ensures
      var last := DocumentRows(now, counts, draws)[LastAt(counts, i)];
      GoodRow(last) && last.timestamp >= now
  {
    hide LastAt, Sum, DocumentRows, MessageCounts, UnitDraws, Horizon, GoodRow;
    DocumentGood(now, counts, draws, |counts|);
    var r := LastAt(counts, i);
    assert DocumentRows(now, counts, draws)[r] in DocumentRows(now, counts, draws);
  }

  lemma LastFollows(now: Time, counts: seq<nat>, draws: seq<real>, i: nat)
    requires MessageCounts(counts) && 6 * Sum(counts) <= |draws| && 1 <= i <= |counts|
    ensures counts[i - 1] >= 1
    ensures
      var r := LastAt(counts, i);
      FollowsDraws(DocumentRows(now, counts, draws)[r], now, i, counts[i - 1] - 1, draws, 6 * r)
  {
    assert counts[i - 1] >= 1;
    hide *;
    DocumentFollowsDraws(now, counts, draws, i, counts[i - 1] - 1, LastAt(counts, i));
  }

  lemma LastFiled(
    codec: TimeCodec, now: Time, counts: seq<nat>, draws: seq<real>, i: nat, c: Entries, arrival: Time,
    clock: Time -> string)
    requires GoodCodec(codec) && Drawable(now, counts, draws) && 0 < now && 1 <= i <= |counts|
    ensures
      var last := DocumentRows(now, counts, draws)[LastAt(counts, i)];
      var filed := PutEach(c, EndToEnd.Contribution(codec, Body(codec, now, counts, draws)), arrival);
      SwitchMetrics(filed, SwitchName(i), clock)
      == Ok(MetricsListResponse(SwitchName(i), ToMap(RowData(last), clock), last.timestamp))
  {
    assert MessageCounts(counts) && 6 * Sum(counts) <= |draws|;
    hide *;
    var rows := DocumentRows(now, counts, draws);
    DocumentArrives(codec, now, counts, draws);
    LastOfDocument(now, counts, draws, i);
    LastIsGood(now, counts, draws, i);
    SwitchNameInjective(i, i);
    RowDataKeeps(rows[LastAt(counts, i)]);
    CallIsServed(c, RowsData(rows), arrival, SwitchName(i), clock);
  }

  // ----- a switch whose timestamps go backwards -----

  /** Three messages of one switch: the second is drawn with the longest stagger, the
      third with the shortest. */
  function BackwardDraws(): (draws: seq<real>)
    ensures |draws| == 18 && UnitDraws(draws)
  {
    seq(18, k => if k == 6 then 0.99 else 0.0)
  }

  lemma BackwardStagger(now: Time)
    ensures
      var draws := BackwardDraws();
      && DrawRow(now, 1, 0, draws, 0).timestamp == now
      && DrawRow(now, 1, 1, draws, 6).timestamp == now + 49 * MILLISECOND
      && DrawRow(now, 1, 2, draws, 12).timestamp == now + 20 * MILLISECOND
    ensures forall j, at | 0 <= j < 3 && 0 <= at <= 12 ::
              DrawRow(now, 1, j, BackwardDraws(), at).switchId == SwitchName(1)
  {
    hide Round, SwitchName;
    var draws := BackwardDraws();
    assert StaggerMs(draws[6]) == 49 && StaggerMs(draws[12]) == 10;
  }

  lemma BackwardRows(now: Time) returns (rows: seq<Row>)
    ensures 6 * Sum([3]) == |BackwardDraws()| && MessageCounts([3])
    ensures rows == DocumentRows(now, [3], BackwardDraws()) && |rows| == 3
    ensures forall j :: 0 <= j < 3 ==> rows[j].switchId == SwitchName(1)
    ensures rows[0].timestamp == now
    ensures rows[1].timestamp == now + 49 * MILLISECOND && rows[2].timestamp == now + 20 * MILLISECOND
  {
    var draws := BackwardDraws();
    assert [3][..0] == [] && Sum([]) == 0;
    BackwardStagger(now);
    hide DrawRow;
    rows := SwitchRows(now, 1, 3, draws, 0);
    assert DocumentRows(now, [], draws) + rows == rows;
  }

  /** Timestamps of a generated document can go backwards within a switch, and then the
      live cache ends with the older record. */
  lemma DocumentGoesBackwards(now: Time, arrival: Time)
    requires 0 < now
    ensures 6 * Sum([3]) == |BackwardDraws()|
    ensures
      var data := RowsData(DocumentRows(now, [3], BackwardDraws()));
      && |data| == 3 && data[2].switchId == data[1].switchId && data[2].timestamp < data[1].timestamp
      && LiveCache([BulkCall(data, arrival)]).data == map[SwitchName(1) := data[2]]
      && !IsLatest(data, SwitchName(1), data[2])
  {
    var rows := BackwardRows(now);
    SwitchNameInjective(1, 1);
    RowDataKeeps(rows[0]);
    RowDataKeeps(rows[1]);
    RowDataKeeps(rows[2]);
    hide SwitchName, DocumentRows, BackwardDraws, RowData, LiveCache, IsLatest;
    OneSwitchCache(RowsData(rows), arrival);
  }

  lemma RowDataKeeps(row: Row)
    ensures RowData(row).switchId == row.switchId && RowData(row).timestamp == row.timestamp
  {
  }

  lemma OneSwitchCache(data: seq<TelemetryData>, arrival: Time)
    requires |data| == 3 && data[0].switchId == data[1].switchId == data[2].switchId != ""
    requires data[0].timestamp > 0 && data[1].timestamp > data[2].timestamp > 0
    ensures LiveCache([BulkCall(data, arrival)]).data == map[data[0].switchId := data[2]]
    ensures !IsLatest(data, data[0].switchId, data[2])
  {
    assert data[1] in data;
    var calls := [BulkCall(data, arrival)];
    assert calls[..0] == [] && BulkLog([]) == [];
    assert BulkLog(calls) == data;
    LiveCacheIsLast(calls);
    hide Stamped, LiveCache;
    var id := data[0].switchId;
    assert data[..2] == [data[0], data[1]] && data[..2][..1] == [data[0]] && [data[0]][..0] == [];
    assert LastPerSwitch([data[0]]) == map[id := data[0]];
    assert LastPerSwitch(data[..2]) == map[id := data[1]];
  }
}
