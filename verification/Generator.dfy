/** The generator: it draws a document, prints it as CSV and publishes it. */
module Generator {
  import opened Models
  import opened Decimal
  import opened Csv

  const MILLISECOND: int := 1_000_000

  function SwitchName(i: nat): string {
    "switch-" + PadNat(i, 3)
  }

  function GenerationName(id: int): string {
    "gen_" + FormatInt(id)
  }

  lemma SwitchNameInjective(i: nat, j: nat)
    ensures SwitchName(i) == SwitchName(j) <==> i == j
    ensures Clean(SwitchName(i)) && SwitchName(i) != ""
  {
    PadNatReads(i, 3);
    SwitchNameClean(PadNat(i, 3));
    hide PadNat, Clean;
    if SwitchName(i) == SwitchName(j) {
      assert SwitchName(i)[7..] == PadNat(i, 3) && SwitchName(j)[7..] == PadNat(j, 3);
      PadNatInjective(i, j, 3);
    }
  }

  lemma SwitchNameClean(digits: string)
    requires AllDigits(digits)
    ensures Clean("switch-" + digits)
  {
    PrintedDigitsClean(digits);
    hide AllDigits;
  }

  lemma GenerationNameInjective(i: int, j: int)
    ensures GenerationName(i) == GenerationName(j) <==> i == j
    ensures GenerationName(i) != ""
  {
    if GenerationName(i) == GenerationName(j) {
      assert GenerationName(i)[4..] == FormatInt(i) && GenerationName(j)[4..] == FormatInt(j);
      FormatIntReads(i);
      FormatIntReads(j);
    }
  }

  /** `switch-` and the number with at least three digits. */
  lemma SwitchNameText(i: nat)
    ensures |SwitchName(i)| >= 10 && SwitchName(i)[..7] == "switch-"
    ensures AllDigits(SwitchName(i)[7..]) && DigitsValue(SwitchName(i)[7..]) == i
    ensures |SwitchName(i)| > 10 ==> SwitchName(i)[7] != '0'
    ensures SwitchName(7) == "switch-007" && SwitchName(1024) == "switch-1024"
  {
    PadNatText(i, 3);
    ZeroIsShort(i);
    SwitchNameExamples();
    hide PadNat, DigitsValue, AllDigits;
    assert SwitchName(i)[7..] == PadNat(i, 3);
    assert SwitchName(i)[..7] == "switch-";
  }

  lemma SwitchNameExamples()
    ensures SwitchName(7) == "switch-007" && SwitchName(1024) == "switch-1024"
  {
    PrintedPadding();
    hide PadNat;
  }

  /** `gen_` and the number. */
  lemma GenerationNameText(id: int)
    ensures |GenerationName(id)| > 4 && GenerationName(id)[..4] == "gen_"
    ensures ParseInt(GenerationName(id)[4..]) == if INT64_MIN <= id <= INT64_MAX then Some(id) else None
    ensures GenerationName(-45) == "gen_-45"
  {
    IntRoundTrip(id);
    FormatIntReads(id);
    PrintedExamples();
    hide PadNat, FormatInt, FormatNat, FormatFixed, ParseInt, DigitsValue, AllDigits;
    assert GenerationName(id)[4..] == FormatInt(id);
  }

  lemma ZeroIsShort(i: nat)
    ensures |PadNat(i, 3)| > 3 ==> i > 0
  {
  }

  lemma FormatIntReads(n: int)
    ensures FormatInt(n) != []
    ensures (FormatInt(n)[0] == '-') == (n < 0)
    ensures AllDigits(Unsigned(FormatInt(n)))
    ensures n == if n < 0 then -(DigitsValue(Unsigned(FormatInt(n))) as int) else DigitsValue(Unsigned(FormatInt(n)))
  {
    var m: nat := if n < 0 then -n else n;
    FormatNatReads(m);
    assert IsDigit(FormatNat(m)[0]);
    assert Unsigned(FormatInt(n)) == FormatNat(m);
  }

  // ----- drawing a document -----

  /** Six draws per record, each at least 0 and below 1. */
  predicate UnitDraws(draws: seq<real>) {
    forall u | u in draws :: 0.0 <= u < 1.0
  }

  predicate MessageCounts(counts: seq<nat>) {
    forall i :: 0 <= i < |counts| ==> 1 <= counts[i] <= 100
  }

  function Sum(counts: seq<nat>): nat {
    if counts == [] then 0 else Sum(counts[..|counts| - 1]) + counts[|counts| - 1]
  }

  /** Rounds to the nearest integer, ties to the even one. */
  function Round(x: real): int {
    var below := x.Floor;
    var rest := x - below as real;
    if rest < 0.5 || (rest == 0.5 && below % 2 == 0) then below else below + 1
  }

  function StaggerMs(u: real): int {
    10 + (u * 40.0).Floor
  }

  /** Message `j` of switch `i`, made from the six draws at position `at`. */
  function DrawRow(now: Time, i: nat, j: nat, draws: seq<real>, at: nat): Row
    requires at + 6 <= |draws|
  {
    Row(
      SwitchName(i),
      now + ((i - 1) * 100 + j * StaggerMs(draws[at])) * MILLISECOND,
      Round((100.0 + draws[at + 1] * 800.0) * 100.0),
      Round((0.5 + draws[at + 2] * 5.0) * 1000.0),
      (draws[at + 3] * 10.0).Floor,
      Round((10.0 + draws[at + 4] * 80.0) * 100.0),
      Round((30.0 + draws[at + 5] * 30.0) * 100.0))
  }

  function SwitchRows(now: Time, i: nat, count: nat, draws: seq<real>, at: nat): (rows: seq<Row>)
    requires at + 6 * count <= |draws|
    ensures |rows| == count
    ensures forall j :: 0 <= j < count ==> rows[j] == DrawRow(now, i, j, draws, at + 6 * j)
  {
    seq(count, j requires 0 <= j < count => DrawRow(now, i, j, draws, at + 6 * j))
  }

  /** Switch 1 first; each switch continues where the previous one stopped drawing. */
  function DocumentRows(now: Time, counts: seq<nat>, draws: seq<real>): (rows: seq<Row>)
    requires 6 * Sum(counts) <= |draws|
    ensures |rows| == Sum(counts)
  {
    if counts == [] then []
    else
      var n := |counts|;
      DocumentRows(now, counts[..n - 1], draws)
      + SwitchRows(now, n, counts[n - 1], draws, 6 * Sum(counts[..n - 1]))
  }

  /** The draws that are made always suffice: before message `j` of switch `i` the
      index is at most `600 * (i - 1) + 6 * j`, so six more reads stay in bounds. */
  lemma {:induction false} DrawsSuffice(counts: seq<nat>, i: nat, j: nat)
    requires MessageCounts(counts) && 1 <= i <= |counts| && j < counts[i - 1]
    ensures 6 * (Sum(counts[..i - 1]) + j) <= 600 * (i - 1) + 6 * j
    ensures 6 * (Sum(counts[..i - 1]) + j) + 6 <= 600 * |counts|
  {
    SumBound(counts[..i - 1]);
  }

  /** What the outer loop knows before switch `i`. */
  lemma PrefixBounds(counts: seq<nat>, i: nat)
    requires MessageCounts(counts) && 1 <= i <= |counts|
    ensures Sum(counts[..i - 1]) <= 100 * (i - 1) && Sum(counts[..i]) <= 100 * i && counts[i - 1] <= 100
  {
    SumBound(counts[..i - 1]);
    SumBound(counts[..i]);
  }

  lemma {:induction false} SumBound(counts: seq<nat>)
    requires MessageCounts(counts)
    ensures |counts| <= Sum(counts) <= 100 * |counts|
  {
    if counts != [] {
      SumBound(counts[..|counts| - 1]);
    }
  }

  lemma {:induction false} RenderAppend(printer: Row -> string, a: seq<Row>, b: seq<Row>)
    ensures RenderRows(printer, a + b) == RenderRows(printer, a) + RenderRows(printer, b)
  {
    if b == [] {
      assert a + b == a;
    } else {
      var front := b[..|b| - 1];
      RenderAppend(printer, a, front);
      assert (a + b)[..|a + b| - 1] == a + front;
      Regroup(RenderRows(printer, a), RenderRows(printer, front), printer(b[|b| - 1]));
    }
  }

  lemma RenderNothing(printer: Row -> string, start: string)
    ensures start + RenderRows(printer, []) == start
  {
  }

  lemma SwitchRowsStep(now: Time, i: nat, j: nat, draws: seq<real>, at: nat)
    requires at + 6 * (j + 1) <= |draws|
    ensures SwitchRows(now, i, j + 1, draws, at)
         == SwitchRows(now, i, j, draws, at) + [DrawRow(now, i, j, draws, at + 6 * j)]
  {
    hide DrawRow;
  }

  lemma RenderOneMore(printer: Row -> string, start: string, rows: seq<Row>, row: Row)
    ensures start + RenderRows(printer, rows + [row]) == start + RenderRows(printer, rows) + printer(row)
  {
    assert (rows + [row])[..|rows|] == rows;
  }

  lemma DocumentRowsStep(now: Time, counts: seq<nat>, draws: seq<real>, i: nat)
    requires 1 <= i <= |counts| && 6 * Sum(counts[..i]) <= |draws|
    ensures Sum(counts[..i]) == Sum(counts[..i - 1]) + counts[i - 1]
    ensures DocumentRows(now, counts[..i], draws)
         == DocumentRows(now, counts[..i - 1], draws)
          + SwitchRows(now, i, counts[i - 1], draws, 6 * Sum(counts[..i - 1]))
  {
    assert counts[..i][..i - 1] == counts[..i - 1];
  }

  /** Printing the rows of the first `i` switches continues the print of the
      first `i - 1`. */
  lemma DocumentText(printer: Row -> string, header: string, now: Time, counts: seq<nat>, draws: seq<real>, i: nat)
    requires 1 <= i <= |counts| && 6 * Sum(counts[..i]) <= |draws|
    ensures Sum(counts[..i]) == Sum(counts[..i - 1]) + counts[i - 1]
    ensures header + RenderRows(printer, DocumentRows(now, counts[..i], draws))
         == header + RenderRows(printer, DocumentRows(now, counts[..i - 1], draws))
          + RenderRows(printer, SwitchRows(now, i, counts[i - 1], draws, 6 * Sum(counts[..i - 1])))
  {
    hide DrawRow;
    DocumentRowsStep(now, counts, draws, i);
    var rows := DocumentRows(now, counts[..i - 1], draws);
    var more := SwitchRows(now, i, counts[i - 1], draws, 6 * Sum(counts[..i - 1]));
    RenderAppend(printer, rows, more);
    Regroup(header, RenderRows(printer, rows), RenderRows(printer, more));
  }

  // ----- the generator object -----

  class DataGenerator {
    const switchCount: nat
    var dataCache: string
    var cacheTime: Time
    var generating: bool
    var generationId: int
    var lastGeneration: Time
    var ready: bool

    constructor (switchCount: nat)
      ensures this.switchCount == switchCount && dataCache == "" && !ready && !generating
    {
      this.switchCount := switchCount;
      dataCache := "";
      cacheTime := ZERO_TIME;
      generating := false;
      generationId := 0;
      lastGeneration := ZERO_TIME;
      ready := false;
    }

    /** The first, unlocked step of publishing: only the generation ID changes. */
    method StampGeneration(now: Time)
      modifies this`generationId
      ensures generationId == now
    {
      generationId := now;
    }

    /** The second, locked step of publishing. */
    method SwapCache(buf: string, now: Time)
      modifies this`dataCache, this`cacheTime, this`lastGeneration, this`generating, this`ready
      ensures dataCache == buf && cacheTime == now && lastGeneration == now && !generating && ready
    {
      dataCache := buf;
      cacheTime := now;
      lastGeneration := now;
      generating := false;
      ready := true;
    }

    /** The inner loop: appends all messages of switch `i`, after `drawn` messages
        of earlier switches. The draws never run out, so they are never drawn a
        second time. */
    method AppendSwitch(
      printer: Row -> string, now: Time, i: nat, messages: nat, draws: seq<real>, start: string, at: nat,
      ghost drawn: nat)
      returns (buf: string, randomIndex: nat)
      requires 1 <= i <= switchCount && messages <= 100
      requires |draws| == switchCount * 100 * 6
      requires at == 6 * drawn && drawn <= 100 * (i - 1)
      ensures at + 6 * messages <= |draws| && randomIndex == at + 6 * messages
      ensures buf == start + RenderRows(printer, SwitchRows(now, i, messages, draws, at))
    {
      hide DrawRow, RenderRows, Sum, DocumentRows;
      buf, randomIndex := start, at;
      assert start + RenderRows(printer, []) == start by { RenderNothing(printer, start); }
      ghost var rows: seq<Row> := [];
      for j := 0 to messages
        invariant randomIndex == 6 * (drawn + j) && randomIndex <= 600 * (i - 1) + 6 * j
        invariant rows == SwitchRows(now, i, j, draws, at)
        invariant buf == start + RenderRows(printer, rows)
      {
        if randomIndex >= |draws| {
          assert false;
        }
        var row := DrawRow(now, i, j, draws, randomIndex);
        RenderOneMore(printer, start, rows, row);
        SwitchRowsStep(now, i, j, draws, at);
        rows := rows + [row];
        buf := buf + printer(row);
        randomIndex := randomIndex + 6;
      }
    }

    /** Draws, prints and publishes one document. `counts[i]` is the number of
        messages drawn for switch `i + 1`. */
    method GenerateData(codec: TimeCodec, now: Time, counts: seq<nat>, draws: seq<real>)
      requires |counts| == switchCount && MessageCounts(counts)
      requires |draws| == switchCount * 100 * 6 && UnitDraws(draws)
      modifies this
      ensures 6 * Sum(counts) <= |draws|
      ensures dataCache == RenderDocument(codec, DocumentRows(now, counts, draws))
      ensures generationId == now && cacheTime == now && lastGeneration == now && ready && !generating
    {
      SumBound(counts);
      generating := true;
      StampGeneration(now);
      var printer := RowPrinter(codec);
      var header := HeaderLine() + "\n";
      var buf := DrawDocument(printer, header, now, counts, draws);
      SwapCache(buf, now);
    }

    /** The two nested loops: every message of every switch, in order. */
    method DrawDocument(printer: Row -> string, header: string, now: Time, counts: seq<nat>, draws: seq<real>)
      returns (buf: string)
      requires |counts| == switchCount && MessageCounts(counts)
      requires |draws| == switchCount * 100 * 6
      ensures 6 * Sum(counts) <= |draws|
      ensures buf == header + RenderRows(printer, DocumentRows(now, counts, draws))
    {
      hide DrawRow, SwitchRows, MessageCounts;
      buf := header;
      var randomIndex := 0;
      assert header + RenderRows(printer, []) == header;
      for i := 1 to switchCount + 1
        invariant 6 * Sum(counts[..i - 1]) <= |draws|
        invariant randomIndex == 6 * Sum(counts[..i - 1])
        invariant buf == header + RenderRows(printer, DocumentRows(now, counts[..i - 1], draws))
      {
        PrefixBounds(counts, i);
        DocumentText(printer, header, now, counts, draws, i);
        buf, randomIndex := AppendSwitch(printer, now, i, counts[i - 1], draws, buf, randomIndex,
                                          Sum(counts[..i - 1]));
      }
      assert counts[..switchCount] == counts;
    }

    /** Serves the published document, or nothing when there is none yet. */
    method HandleCounters(codec: TimeCodec) returns (r: Option<Response>)
      ensures r.None? <==> !ready || dataCache == ""
      ensures r.Some? ==> r.value == Response(GenerationName(generationId), codec.format(cacheTime), dataCache)
    {
      if !ready || |dataCache| == 0 {
        return None;
      }
      return Some(Response(GenerationName(generationId), codec.format(cacheTime), dataCache));
    }
  }

  // ----- what a document looks like -----

  /** How late the last message of a document can be. */
  function Horizon(switchCount: nat): int {
    (switchCount * 100 + 4900) * MILLISECOND
  }

  lemma StaggerRange(u: real)
    requires 0.0 <= u < 1.0
    ensures 10 <= StaggerMs(u) <= 49
  {
  }

  lemma OffsetRange(i: nat, j: nat, stagger: int)
    requires i >= 1 && j <= 99 && 10 <= stagger <= 49
    ensures 0 <= (i - 1) * 100 + j * stagger <= (i - 1) * 100 + 4851
  {
    assert j * stagger <= 99 * stagger;
  }

  lemma DrawRowGood(now: Time, i: nat, j: nat, draws: seq<real>, at: nat, switchCount: nat)
    requires at + 6 <= |draws| && UnitDraws(draws) && 1 <= i <= switchCount && j <= 99
    requires 0 <= now && now + Horizon(switchCount) < TIME_LIMIT
    ensures GoodRow(DrawRow(now, i, j, draws, at))
    ensures DrawRow(now, i, j, draws, at).timestamp >= now
  {
    SwitchNameInjective(i, i);
    assert draws[at] in draws && draws[at + 3] in draws;
    StaggerRange(draws[at]);
    OffsetRange(i, j, StaggerMs(draws[at]));
  }

  lemma {:induction false} DocumentGood(now: Time, counts: seq<nat>, draws: seq<real>, switchCount: nat)
    requires MessageCounts(counts) && 6 * Sum(counts) <= |draws| && UnitDraws(draws) && |counts| <= switchCount
    requires 0 <= now && now + Horizon(switchCount) < TIME_LIMIT
    ensures forall row | row in DocumentRows(now, counts, draws) :: GoodRow(row) && row.timestamp >= now
  {
    if counts != [] {
      var n := |counts|;
      DocumentGood(now, counts[..n - 1], draws, switchCount);
      var at := 6 * Sum(counts[..n - 1]);
      var rows := SwitchRows(now, n, counts[n - 1], draws, at);
      forall j | 0 <= j < counts[n - 1]
        ensures GoodRow(rows[j]) && rows[j].timestamp >= now
      {
        DrawRowGood(now, n, j, draws, at + 6 * j, switchCount);
      }
    }
  }

  lemma RoundsWithin(x: real, low: int, high: int)
    requires low as real <= x <= high as real
    ensures low <= Round(x) <= high
  {
  }

  /** The metrics of a message lie in the ranges meant for them: 100 to 900 Mbps, 0.5 to
      5.5 ms, 0 to 9 errors, 10 to 90 percent, 30 to 60 degrees. */
  lemma MetricsInRange(now: Time, i: nat, j: nat, draws: seq<real>, at: nat)
    requires at + 6 <= |draws| && UnitDraws(draws)
    ensures
      var row := DrawRow(now, i, j, draws, at);
      && 100_00 <= row.bandwidth <= 900_00 && 500 <= row.latency <= 5_500 && 0 <= row.packetErrors <= 9
      && 10_00 <= row.utilization <= 90_00 && 30_00 <= row.temperature <= 60_00
  {
    assert forall k :: at <= k < at + 6 ==> draws[k] in draws;
    RoundsWithin((100.0 + draws[at + 1] * 800.0) * 100.0, 100_00, 900_00);
    RoundsWithin((0.5 + draws[at + 2] * 5.0) * 1000.0, 500, 5_500);
    RoundsWithin((10.0 + draws[at + 4] * 80.0) * 100.0, 10_00, 90_00);
    RoundsWithin((30.0 + draws[at + 5] * 30.0) * 100.0, 30_00, 60_00);
    hide Round;
  }

  /** Messages of one switch are staggered by 10 to 49 ms each, those of the next
      switch start 100 ms later. */
  lemma TimestampInRange(now: Time, i: nat, j: nat, draws: seq<real>, at: nat)
    requires at + 6 <= |draws| && UnitDraws(draws) && i >= 1
    ensures
      var late := DrawRow(now, i, j, draws, at).timestamp - now;
      ((i - 1) * 100 + 10 * j) * MILLISECOND <= late <= ((i - 1) * 100 + 49 * j) * MILLISECOND
  {
    hide Round;
    assert draws[at] in draws;
    StaggerRange(draws[at]);
    var stagger := StaggerMs(draws[at]);
    assert 10 * j <= j * stagger <= 49 * j;
  }

  lemma FirstMessageAtNow(now: Time, draws: seq<real>)
    requires 6 <= |draws|
    ensures DrawRow(now, 1, 0, draws, 0).timestamp == now
  {
    hide Round;
  }

  /** The first row of a document carries the publishing time itself. */
  lemma {:induction false} FirstRowAtNow(now: Time, counts: seq<nat>, draws: seq<real>)
    requires counts != [] && MessageCounts(counts) && 6 * Sum(counts) <= |draws|
    ensures DocumentRows(now, counts, draws) != []
    ensures DocumentRows(now, counts, draws)[0].timestamp == now
  {
    var n := |counts|;
    assert counts[..n] == counts && counts[0] >= 1;
    FirstMessageAtNow(now, draws);
    if n == 1 {
      assert counts[..0] == [] && Sum([]) == 0;
      hide DrawRow, MessageCounts;
      DrawnAtOnce(now, counts, draws, 1, 0, 0);
    } else {
      DocumentRowsStep(now, counts, draws, n);
      hide DrawRow, DocumentRows, SwitchRows;
      FirstRowAtNow(now, counts[..n - 1], draws);
    }
  }

  // ----- which draw decides what -----

  /** The nearest integer, and of two nearest ones the even one. */
  lemma RoundIsNearest(x: real)
    ensures -0.5 <= Round(x) as real - x <= 0.5
    ensures Round(x) as real - x == 0.5 || Round(x) as real - x == -0.5 ==> Round(x) % 2 == 0
  {
    var below := x.Floor;
    assert x - below as real == 0.5 && below % 2 != 0 ==> (below + 1) % 2 == 0;
  }

  /** `n` is `x`, counted in units of which `unit` make one, to the nearest of them. */
  predicate Nearest(n: int, x: real, unit: real) {
    -0.5 <= n as real - x * unit <= 0.5
  }

  /** `n` is `x` without its fraction. */
  predicate CutOff(n: int, x: real) {
    x - 1.0 < n as real <= x
  }

  /** A message made from the six draws at position `at`: each field follows its own. */
  ghost predicate FollowsDraws(row: Row, now: Time, i: nat, j: nat, draws: seq<real>, at: nat)
    requires at + 6 <= |draws|
  {
    && row.switchId == SwitchName(i)
    && (exists stagger ::
          CutOff(stagger, 10.0 + draws[at] * 40.0)
          && row.timestamp == now + ((i - 1) * 100 + j * stagger) * 1_000_000)
    && Nearest(row.bandwidth, 100.0 + draws[at + 1] * 800.0, 100.0)
    && Nearest(row.latency, 0.5 + draws[at + 2] * 5.0, 1000.0)
    && CutOff(row.packetErrors, draws[at + 3] * 10.0)
    && Nearest(row.utilization, 10.0 + draws[at + 4] * 80.0, 100.0)
    && Nearest(row.temperature, 30.0 + draws[at + 5] * 30.0, 100.0)
  }

  lemma DrawRowFollows(now: Time, i: nat, j: nat, draws: seq<real>, at: nat)
    requires at + 6 <= |draws|
    ensures FollowsDraws(DrawRow(now, i, j, draws, at), now, i, j, draws, at)
  {
    RoundIsNearest((100.0 + draws[at + 1] * 800.0) * 100.0);
    RoundIsNearest((0.5 + draws[at + 2] * 5.0) * 1000.0);
    RoundIsNearest((10.0 + draws[at + 4] * 80.0) * 100.0);
    RoundIsNearest((30.0 + draws[at + 5] * 30.0) * 100.0);
    assert CutOff(StaggerMs(draws[at]), 10.0 + draws[at] * 40.0);
    hide Round, SwitchName;
  }

  /** A document has one row per message, and row `r`, which is message `j` of switch `i`
      when `r` counts the messages before it, follows the six draws from `6 * r` on: no
      draw is used twice or passed over. */
  lemma DocumentFollowsDraws(now: Time, counts: seq<nat>, draws: seq<real>, i: nat, j: nat, r: nat)
    requires 6 * Sum(counts) <= |draws| && 1 <= i <= |counts| && j < counts[i - 1]
    requires r == Sum(counts[..i - 1]) + j
    ensures |DocumentRows(now, counts, draws)| == Sum(counts) && r < Sum(counts)
    ensures FollowsDraws(DocumentRows(now, counts, draws)[r], now, i, j, draws, 6 * r)
  {
    hide DocumentRows, DrawRow, FollowsDraws, Sum;
    MessageRow(now, counts, draws, i, j, r);
    DrawRowFollows(now, i, j, draws, 6 * r);
  }

  lemma MessageRow(now: Time, counts: seq<nat>, draws: seq<real>, i: nat, j: nat, r: nat)
    requires 6 * Sum(counts) <= |draws| && 1 <= i <= |counts| && j < counts[i - 1]
    requires r == Sum(counts[..i - 1]) + j
    ensures r < Sum(counts) && DocumentRows(now, counts, draws)[r] == DrawRow(now, i, j, draws, 6 * r)
  {
    hide DocumentRows, DrawRow, Sum;
    PrefixSums(counts, i, |counts|);
    assert counts[..|counts|] == counts;
    DrawnAtOnce(now, counts, draws, i, j, r);
    RowStays(now, counts, draws, i, |counts|, r, DrawRow(now, i, j, draws, 6 * r));
  }

  lemma {:induction false} PrefixSums(counts: seq<nat>, i: nat, n: nat)
    requires 1 <= i <= n <= |counts|
    ensures Sum(counts[..i]) == Sum(counts[..i - 1]) + counts[i - 1]
    ensures Sum(counts[..i]) <= Sum(counts[..n])
    decreases n
  {
    assert counts[..i][..i - 1] == counts[..i - 1] && counts[..n][..n - 1] == counts[..n - 1];
    if i < n {
      PrefixSums(counts, i, n - 1);
    }
  }

  /** Message `j` of switch `i` when the switch has just been drawn. */
  lemma DrawnAtOnce(now: Time, counts: seq<nat>, draws: seq<real>, i: nat, j: nat, r: nat)
    requires 1 <= i <= |counts| && 6 * Sum(counts[..i]) <= |draws| && j < counts[i - 1]
    requires r == Sum(counts[..i - 1]) + j && 6 * r + 6 <= |draws|
    ensures r < Sum(counts[..i]) && DocumentRows(now, counts[..i], draws)[r] == DrawRow(now, i, j, draws, 6 * r)
  {
    DocumentRowsStep(now, counts, draws, i);
    hide DocumentRows, DrawRow, Sum;
    RowOfLast(DocumentRows(now, counts[..i - 1], draws), now, i, counts[i - 1], draws, Sum(counts[..i - 1]), j, r);
  }

  /** Drawing further switches leaves the rows that are there in their places. */
  lemma {:induction false} RowStays(
    now: Time, counts: seq<nat>, draws: seq<real>, i: nat, n: nat, r: nat, row: Row)
    requires 1 <= i <= n <= |counts| && 6 * Sum(counts[..n]) <= |draws| && 6 * Sum(counts[..i]) <= |draws|
    requires r < |DocumentRows(now, counts[..i], draws)| && DocumentRows(now, counts[..i], draws)[r] == row
    ensures r < |DocumentRows(now, counts[..n], draws)| && DocumentRows(now, counts[..n], draws)[r] == row
    decreases n
  {
    hide DocumentRows, SwitchRows, Sum;
    if i < n {
      DocumentRowsStep(now, counts, draws, n);
      RowStays(now, counts, draws, i, n - 1, r, row);
    }
  }

  lemma RowOfLast(before: seq<Row>, now: Time, i: nat, count: nat, draws: seq<real>, drawn: nat, j: nat, r: nat)
    requires |before| == drawn && j < count && 6 * drawn + 6 * count <= |draws|
    requires r == drawn + j
    ensures (before + SwitchRows(now, i, count, draws, 6 * drawn))[r] == DrawRow(now, i, j, draws, 6 * r)
  {
    hide DrawRow;
    assert 6 * r == 6 * drawn + 6 * j;
  }
}
