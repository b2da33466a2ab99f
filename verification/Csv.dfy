/** The CSV document (section 2 of RFC 4180) that the generator publishes, the
    reader the client runs on it, and the round trip between the two. */
module Csv {
  import opened Models
  import opened Decimal

  // ----- text pieces -----

  /** The pieces between the separators, as many as there are separators plus one. */
  function Split(s: string, sep: char): (parts: seq<string>)
    ensures parts != []
    decreases |s|
  {
    var i := IndexOf(s, sep);
    if i == |s| then [s] else [s[..i]] + Split(s[i + 1..], sep)
  }

  function Join(parts: seq<string>, sep: char): string
    requires parts != []
  {
    if |parts| == 1 then parts[0] else parts[0] + [sep] + Join(parts[1..], sep)
  }

  lemma IndexOfFirst(prefix: string, c: char, rest: string)
    requires c !in prefix
    ensures IndexOf(prefix + [c] + rest, c) == |prefix|
  {
    var s := prefix + [c] + rest;
    var i := IndexOf(s, c);
    assert s[|prefix|] == c;
    assert forall k :: 0 <= k < |prefix| ==> s[k] == prefix[k] && prefix[k] in prefix;
  }

  lemma IndexOfNone(s: string, c: char)
    requires c !in s
    ensures IndexOf(s, c) == |s|
  {
  }

  lemma SplitStep(first: string, sep: char, rest: string)
    requires sep !in first
    ensures Split(first + [sep] + rest, sep) == [first] + Split(rest, sep)
  {
    IndexOfFirst(first, sep, rest);
    var s := first + [sep] + rest;
    assert s[..|first|] == first && s[|first| + 1..] == rest;
  }

  /** Splitting undoes joining when no part contains the separator. */
  lemma {:induction false} SplitJoin(parts: seq<string>, sep: char)
    requires parts != [] && forall p | p in parts :: sep !in p
    ensures Split(Join(parts, sep), sep) == parts
  {
    if |parts| == 1 {
      IndexOfNone(parts[0], sep);
      assert parts == [parts[0]];
    } else {
      SplitJoin(parts[1..], sep);
      assert sep !in parts[0];
      SplitStep(parts[0], sep, Join(parts[1..], sep));
      assert [parts[0]] + parts[1..] == parts;
    }
  }

  lemma {:induction false} JoinAvoids(parts: seq<string>, sep: char, c: char)
    requires parts != [] && c != sep && forall p | p in parts :: c !in p
    ensures c !in Join(parts, sep)
  {
    if |parts| > 1 {
      JoinAvoids(parts[1..], sep, c);
      assert c !in parts[0];
    }
  }

  // ----- the reader -----

  function DropReturn(line: string): string {
    if line != [] && line[|line| - 1] == '\r' then line[..|line| - 1] else line
  }

  /** The lines that carry a record: line ends removed, empty lines skipped. */
  function RecordLines(lines: seq<string>): seq<string> {
    if lines == [] then []
    else if DropReturn(lines[0]) == [] then RecordLines(lines[1..])
    else [DropReturn(lines[0])] + RecordLines(lines[1..])
  }

  /** Splits each line on commas; every record must have as many fields as the
      first one. */
  function ReadRecords(lines: seq<string>, width: nat): Result<seq<seq<string>>> {
    if lines == [] then Ok([])
    else
      var fields := Split(lines[0], ',');
      if width != 0 && |fields| != width then Err(BadCsv)
      else
        match ReadRecords(lines[1..], |fields|)
        case Err(e) => Err(e)
        case Ok(records) => Ok([fields] + records)
  }

  /** Reads a whole text without quoted fields. */
  function ReadAll(text: string): Result<seq<seq<string>>> {
    if '"' in text then Err(BadCsv)
    else ReadRecords(RecordLines(Split(text, '\n')), 0)
  }

  // ----- the printed form of instants -----

  /** How an instant is written, and how it is read back. */
  datatype TimeCodec = TimeCodec(format: Time -> string, parse: string -> Option<Time>)

  predicate Clean(s: string) {
    ',' !in s && '\n' !in s && '\r' !in s && '"' !in s
  }

  /** Written instants are read back unchanged and contain no CSV punctuation. */
  ghost predicate GoodCodec(codec: TimeCodec) {
    forall t: Time | Printable(t) ::
      codec.parse(codec.format(t)) == Some(t) && Clean(codec.format(t)) && codec.format(t) != []
  }

  // ----- rows -----

  /** One line of the document; metrics are fixed-point numbers with the number
      of decimals the generator prints. */
  datatype Row = Row(
    switchId: string,
    timestamp: Time,
    bandwidth: int,
    latency: int,
    packetErrors: int,
    utilization: int,
    temperature: int)

  const HEADER: seq<string> := [
    "switch_id", "timestamp", "bandwidth_mbps", "latency_ms", "packet_errors", "utilization_pct", "temperature_c"]

  function RowFields(codec: TimeCodec, row: Row): (fields: seq<string>)
    ensures |fields| == 7
  {
    [row.switchId,
     codec.format(row.timestamp),
     FormatFixed(row.bandwidth, 2),
     FormatFixed(row.latency, 3),
     FormatInt(row.packetErrors),
     FormatFixed(row.utilization, 2),
     FormatFixed(row.temperature, 2)]
  }

  function RenderRow(codec: TimeCodec, row: Row): string {
    Join(RowFields(codec, row), ',') + "\n"
  }

  function RowPrinter(codec: TimeCodec): Row -> string {
    row => RenderRow(codec, row)
  }

  function RenderRows(printer: Row -> string, rows: seq<Row>): string {
    if rows == [] then "" else RenderRows(printer, rows[..|rows| - 1]) + printer(rows[|rows| - 1])
  }

  function RenderDocument(codec: TimeCodec, rows: seq<Row>): string {
    HeaderLine() + "\n" + RenderRows(RowPrinter(codec), rows)
  }

  /** The record a row stands for. */
  function RowData(row: Row): TelemetryData {
    TelemetryData(
      row.switchId,
      row.timestamp,
      Fixed(row.bandwidth, 2).ToReal(),
      Fixed(row.latency, 3).ToReal(),
      row.packetErrors,
      Fixed(row.utilization, 2).ToReal(),
      Fixed(row.temperature, 2).ToReal())
  }

  function RowsData(rows: seq<Row>): (data: seq<TelemetryData>)
    ensures |data| == |rows|
    ensures forall i :: 0 <= i < |rows| ==> data[i] == RowData(rows[i])
  {
    seq(|rows|, i requires 0 <= i < |rows| => RowData(rows[i]))
  }

  predicate GoodRow(row: Row) {
    Clean(row.switchId) && Printable(row.timestamp) && INT64_MIN <= row.packetErrors <= INT64_MAX
  }

  // ----- the client's parser -----

  function ParseRecord(codec: TimeCodec, record: seq<string>): Option<TelemetryData>
    requires |record| >= 7
  {
    var timestamp := codec.parse(record[1]);
    var bandwidth := ParseFloat(record[2]);
    var latency := ParseFloat(record[3]);
    var packetErrors := ParseInt(record[4]);
    var utilization := ParseFloat(record[5]);
    var temperature := ParseFloat(record[6]);
    if timestamp.None? || bandwidth.None? || latency.None? || packetErrors.None? || utilization.None?
       || temperature.None? then None
    else
      Some(TelemetryData(record[0], timestamp.value, bandwidth.value, latency.value, packetErrors.value,
                         utilization.value, temperature.value))
  }

  /** A record of fewer than seven fields, or with a bad field, is skipped. */
  function ParseRow(codec: TimeCodec, record: seq<string>): Option<TelemetryData> {
    if |record| < 7 then None else ParseRecord(codec, record)
  }

  function RowParser(codec: TimeCodec): seq<string> -> Option<TelemetryData> {
    record => ParseRow(codec, record)
  }

  /** The records that parse, in order; the others are skipped. */
  function Collect(parse: seq<string> -> Option<TelemetryData>, records: seq<seq<string>>): seq<TelemetryData> {
    if records == [] then []
    else
      var front := Collect(parse, records[..|records| - 1]);
      match parse(records[|records| - 1])
      case None => front
      case Some(data) => front + [data]
  }

  function ParsedDocument(codec: TimeCodec, text: string): Result<seq<TelemetryData>> {
    match ReadAll(text)
    case Err(e) => Err(e)
    case Ok(records) => if |records| < 2 then Err(NoDataRows) else Ok(Collect(RowParser(codec), records[1..]))
  }

  lemma CollectOneMore(parse: seq<string> -> Option<TelemetryData>, records: seq<seq<string>>, i: nat)
    requires i < |records|
    ensures Collect(parse, records[..i + 1])
         == Collect(parse, records[..i]) + match parse(records[i]) case None => [] case Some(data) => [data]
  {
    assert records[..i + 1][..i] == records[..i];
  }

  method ParseDocument(codec: TimeCodec, text: string) returns (r: Result<seq<TelemetryData>>)
    ensures r == ParsedDocument(codec, text)
  {
    var all := ReadAll(text);
    if all.Err? {
      return Err(all.error);
    }
    var records := all.value;
    if |records| < 2 {
      return Err(NoDataRows);
    }
    var rows := records[1..];
    var data := [];
    assert ParsedDocument(codec, text) == Ok(Collect(RowParser(codec), rows));
    assert Collect(RowParser(codec), []) == [];
    hide ReadAll, ParsedDocument, Collect, ParseRecord;
    for i := 0 to |rows|
      invariant data == Collect(RowParser(codec), rows[..i])
    {
      CollectOneMore(RowParser(codec), rows, i);
      if |rows[i]| < 7 {
        continue;
      }
      var parsed := ParseRecord(codec, rows[i]);
      if parsed.None? {
        continue;
      }
      data := data + [parsed.value];
    }
    assert rows[..|rows|] == rows;
    return Ok(data);
  }

  /** The timestamp of the first data row, found without the CSV reader; the zero
      instant when there is none. */
  function ExtractFirstTimestamp(codec: TimeCodec, text: string): Time {
    var lines := Split(text, '\n');
    if |lines| < 2 then ZERO_TIME
    else
      var fields := Split(lines[1], ',');
      if |fields| < 2 then ZERO_TIME
      else
        var t := codec.parse(fields[1]);
        if t.None? then ZERO_TIME else t.value
  }

  // ----- round trip -----

  lemma PrintedDigitsClean(s: string)
    requires AllDigits(s)
    ensures Clean(s) && '.' !in s
  {
  }

  lemma FixedClean(units: int, places: nat)
    requires places > 0
    ensures Clean(FormatFixed(units, places)) && FormatFixed(units, places) != []
  {
    var n: nat := if units < 0 then -units else units;
    PiecesValue(n, places);
    PrintedDigitsClean(FormatNat(Quotient(n, Pow10(places))));
    PrintedDigitsClean(PadNat(Remainder(n, Pow10(places)), places));
  }

  lemma IntClean(n: int)
    ensures Clean(FormatInt(n)) && FormatInt(n) != []
  {
    FormatNatReads(if n < 0 then -n else n);
    PrintedDigitsClean(FormatNat(if n < 0 then -n else n));
  }

  lemma RowFieldsClean(codec: TimeCodec, row: Row)
    requires GoodCodec(codec) && GoodRow(row)
    ensures forall f | f in RowFields(codec, row) :: Clean(f)
  {
    hide FormatFixed, FormatInt;
    FixedClean(row.bandwidth, 2);
    FixedClean(row.latency, 3);
    IntClean(row.packetErrors);
    FixedClean(row.utilization, 2);
    FixedClean(row.temperature, 2);
  }

  lemma RowParses(codec: TimeCodec, row: Row)
    requires GoodCodec(codec) && GoodRow(row)
    ensures ParseRecord(codec, RowFields(codec, row)) == Some(RowData(row))
  {
    hide FormatFixed, FormatInt, ParseFloat, ParseInt, Fixed.ToReal, Clean;
    FixedRoundTrip(row.bandwidth, 2);
    FixedRoundTrip(row.latency, 3);
    IntRoundTrip(row.packetErrors);
    FixedRoundTrip(row.utilization, 2);
    FixedRoundTrip(row.temperature, 2);
  }

  /** The line of a row, without its line end. */
  function RowLine(codec: TimeCodec, row: Row): string {
    Join(RowFields(codec, row), ',')
  }

  lemma FieldsLine(fields: seq<string>)
    requires |fields| >= 2 && forall f | f in fields :: Clean(f)
    ensures
      var line := Join(fields, ',');
      line != [] && '\n' !in line && '\r' !in line && '"' !in line && Split(line, ',') == fields
  {
    SplitJoin(fields, ',');
    JoinAvoids(fields, ',', '\n');
    JoinAvoids(fields, ',', '\r');
    JoinAvoids(fields, ',', '"');
  }

  function Lines(codec: TimeCodec, rows: seq<Row>): (lines: seq<string>)
    ensures |lines| == |rows|
    ensures forall i :: 0 <= i < |rows| ==> lines[i] == RowLine(codec, rows[i])
  {
    seq(|rows|, i requires 0 <= i < |rows| => RowLine(codec, rows[i]))
  }

  /** Each line followed by a line end. */
  function Terminate(lines: seq<string>): string {
    if lines == [] then "" else Terminate(lines[..|lines| - 1]) + lines[|lines| - 1] + "\n"
  }

  lemma {:induction false} RowsAreLines(codec: TimeCodec, rows: seq<Row>)
    ensures RenderRows(RowPrinter(codec), rows) == Terminate(Lines(codec, rows))
  {
    if rows != [] {
      var front := rows[..|rows| - 1];
      RowsAreLines(codec, front);
      assert Lines(codec, rows)[..|rows| - 1] == Lines(codec, front);
      assert RowPrinter(codec)(rows[|rows| - 1]) == RowLine(codec, rows[|rows| - 1]) + "\n";
      Regroup(Terminate(Lines(codec, front)), RowLine(codec, rows[|rows| - 1]), "\n");
    }
  }

  lemma Regroup(a: string, b: string, c: string)
    ensures a + b + c == a + (b + c)
  {
  }

  lemma {:induction false} TerminatedIsJoined(header: string, lines: seq<string>)
    ensures header + "\n" + Terminate(lines) == Join([header] + lines + [""], '\n')
  {
    if lines == [] {
      assert [header] + lines + [""] == [header, ""];
      assert [header, ""][1..] == [""];
    } else {
      var front := lines[..|lines| - 1];
      var last := lines[|lines| - 1];
      TerminatedIsJoined(header, front);
      assert [header] + lines + [""] == ([header] + front) + [last, ""];
      JoinTail([header] + front, last, '\n');
      assert header + "\n" + Terminate(lines) == (header + "\n" + Terminate(front)) + last + "\n";
    }
  }

  lemma {:induction false} JoinTail(parts: seq<string>, last: string, sep: char)
    requires parts != []
    ensures Join(parts + [last, ""], sep) == Join(parts + [""], sep) + last + [sep]
  {
    if |parts| == 1 {
      assert (parts + [""])[1..] == [""];
      assert (parts + [last, ""])[1..] == [last, ""];
      assert [last, ""][1..] == [""];
    } else {
      JoinTail(parts[1..], last, sep);
      assert (parts + [""])[1..] == parts[1..] + [""];
      assert (parts + [last, ""])[1..] == parts[1..] + [last, ""];
    }
  }

  /** Every field of the header and of the rows, one record each. */
  function Records(codec: TimeCodec, rows: seq<Row>): (records: seq<seq<string>>)
    ensures |records| == |rows|
    ensures forall i :: 0 <= i < |rows| ==> records[i] == RowFields(codec, rows[i])
  {
    seq(|rows|, i requires 0 <= i < |rows| => RowFields(codec, rows[i]))
  }

  lemma HeaderIdsClean()
    ensures Clean("switch_id") && Clean("timestamp")
  {
  }

  lemma HeaderRatesClean()
    ensures Clean("bandwidth_mbps") && Clean("latency_ms")
  {
  }

  lemma HeaderErrorsClean()
    ensures Clean("packet_errors")
  {
  }

  lemma HeaderLevelsClean()
    ensures Clean("utilization_pct") && Clean("temperature_c")
  {
  }

  lemma HeaderClean()
    ensures |HEADER| == 7 && forall f | f in HEADER :: Clean(f)
  {
    HeaderIdsClean();
    HeaderRatesClean();
    HeaderErrorsClean();
    HeaderLevelsClean();
    hide Clean;
  }

  /** The lines of a good document: no line ends or quotes inside, not empty, and
      each splits into the fields it was printed from. */
  lemma LinesSplit(codec: TimeCodec, rows: seq<Row>, i: nat)
    requires GoodCodec(codec) && i < |rows| && GoodRow(rows[i])
    ensures
      var line := Lines(codec, rows)[i];
      && line != [] && '\n' !in line && '\r' !in line && '"' !in line
      && Split(line, ',') == RowFields(codec, rows[i])
  {
    RowFieldsClean(codec, rows[i]);
    FieldsLine(RowFields(codec, rows[i]));
  }

  function HeaderLine(): string {
    Join(HEADER, ',')
  }

  lemma SplitTerminated(header: string, lines: seq<string>)
    requires '\n' !in header && '"' !in header
    requires forall i :: 0 <= i < |lines| ==> '\n' !in lines[i] && '"' !in lines[i]
    ensures Split(header + "\n" + Terminate(lines), '\n') == [header] + lines + [""]
    ensures '"' !in header + "\n" + Terminate(lines)
  {
    TerminatedIsJoined(header, lines);
    SplitJoin([header] + lines + [""], '\n');
    JoinAvoids([header] + lines + [""], '\n', '"');
  }

  lemma SplitDocument(codec: TimeCodec, rows: seq<Row>)
    requires GoodCodec(codec) && forall row | row in rows :: GoodRow(row)
    ensures Split(RenderDocument(codec, rows), '\n') == [HeaderLine()] + Lines(codec, rows) + [""]
    ensures '"' !in RenderDocument(codec, rows)
  {
    HeaderClean();
    FieldsLine(HEADER);
    RowsAreLines(codec, rows);
    forall i | 0 <= i < |rows|
      ensures '\n' !in Lines(codec, rows)[i] && '"' !in Lines(codec, rows)[i]
    {
      LinesSplit(codec, rows, i);
    }
    SplitTerminated(HeaderLine(), Lines(codec, rows));
  }

  lemma {:induction false} KeepAllLines(lines: seq<string>)
    requires forall i :: 0 <= i < |lines| ==> lines[i] != [] && '\r' !in lines[i]
    ensures RecordLines(lines + [""]) == lines
  {
    if lines == [] {
      assert lines + [""] == [""];
    } else {
      KeepAllLines(lines[1..]);
      assert (lines + [""])[1..] == lines[1..] + [""];
      NoReturn(lines[0]);
    }
  }

  lemma NoReturn(line: string)
    requires '\r' !in line
    ensures DropReturn(line) == line
  {
  }

  lemma {:induction false} ReadLines(lines: seq<string>, records: seq<seq<string>>, width: nat)
    requires |lines| == |records|
    requires forall i :: 0 <= i < |lines| ==> Split(lines[i], ',') == records[i] && |records[i]| == width
    ensures ReadRecords(lines, width) == Ok(records)
  {
    if lines != [] {
      ReadLines(lines[1..], records[1..], width);
      assert [records[0]] + records[1..] == records;
    }
  }

  lemma ReadAllLines(text: string, lines: seq<string>, records: seq<seq<string>>)
    requires '"' !in text && Split(text, '\n') == lines + [""]
    requires |lines| == |records| && lines != []
    requires forall i :: 0 <= i < |lines| ==> lines[i] != [] && '\r' !in lines[i]
    requires forall i :: 0 <= i < |lines| ==> Split(lines[i], ',') == records[i] && |records[i]| == |records[0]|
    ensures ReadAll(text) == Ok(records)
  {
    KeepAllLines(lines);
    ReadLines(lines, records, |records[0]|);
  }

  lemma ReadBelowHeader(codec: TimeCodec, rows: seq<Row>, line: string, header: seq<string>, text: string)
    requires GoodCodec(codec) && forall row | row in rows :: GoodRow(row)
    requires line != [] && '\r' !in line && Split(line, ',') == header && |header| == 7
    requires '"' !in text && Split(text, '\n') == [line] + Lines(codec, rows) + [""]
    ensures ReadAll(text) == Ok([header] + Records(codec, rows))
  {
    hide RowFields, RowLine;
    var lines := [line] + Lines(codec, rows);
    var records := [header] + Records(codec, rows);
    forall i | 0 <= i < |lines|
      ensures lines[i] != [] && '\r' !in lines[i] && Split(lines[i], ',') == records[i] && |records[i]| == 7
    {
      if i > 0 {
        LinesSplit(codec, rows, i - 1);
      }
    }
    ReadAllLines(text, lines, records);
  }

  /** The reader finds the header and one record per row. */
  lemma ReadDocument(codec: TimeCodec, rows: seq<Row>)
    requires GoodCodec(codec) && forall row | row in rows :: GoodRow(row)
    ensures ReadAll(RenderDocument(codec, rows)) == Ok([HEADER] + Records(codec, rows))
  {
    SplitDocument(codec, rows);
    HeaderClean();
    FieldsLine(HEADER);
    ReadBelowHeader(codec, rows, HeaderLine(), HEADER, RenderDocument(codec, rows));
  }

  lemma {:induction false} CollectAll(
    parse: seq<string> -> Option<TelemetryData>, records: seq<seq<string>>, data: seq<TelemetryData>)
    requires |records| == |data|
    requires forall i :: 0 <= i < |records| ==> parse(records[i]) == Some(data[i])
    ensures Collect(parse, records) == data
  {
    if records != [] {
      var n := |records| - 1;
      CollectAll(parse, records[..n], data[..n]);
      assert data[..n] + [data[n]] == data;
    }
  }

  lemma ParseRows(codec: TimeCodec, rows: seq<Row>)
    requires GoodCodec(codec) && forall row | row in rows :: GoodRow(row)
    ensures Collect(RowParser(codec), Records(codec, rows)) == RowsData(rows)
  {
    forall i | 0 <= i < |rows|
      ensures RowParser(codec)(Records(codec, rows)[i]) == Some(RowsData(rows)[i])
    {
      RowParses(codec, rows[i]);
    }
    CollectAll(RowParser(codec), Records(codec, rows), RowsData(rows));
  }

  /** Parsing a rendered document gives exactly its rows, in order; a document
      without rows is refused. */
  lemma CsvRoundTrip(codec: TimeCodec, rows: seq<Row>)
    requires GoodCodec(codec) && forall row | row in rows :: GoodRow(row)
    ensures ParsedDocument(codec, RenderDocument(codec, rows))
         == if rows == [] then Err(NoDataRows) else Ok(RowsData(rows))
  {
    ReadDocument(codec, rows);
    ParseRows(codec, rows);
    assert ([HEADER] + Records(codec, rows))[1..] == Records(codec, rows);
  }

  /** The timestamp found by splitting the text is that of the first row. */
  lemma FirstTimestamp(codec: TimeCodec, rows: seq<Row>)
    requires GoodCodec(codec) && forall row | row in rows :: GoodRow(row)
    ensures rows != [] ==> ExtractFirstTimestamp(codec, RenderDocument(codec, rows)) == rows[0].timestamp
    ensures rows == [] ==> ExtractFirstTimestamp(codec, RenderDocument(codec, rows)) == ZERO_TIME
  {
    hide FormatFixed, FormatInt, HeaderLine;
    SplitDocument(codec, rows);
    if rows != [] {
      LinesSplit(codec, rows, 0);
    } else {
      IndexOfNone("", ',');
    }
  }

  // ----- any text -----

  /** All lines have the same number of fields. */
  predicate SameWidth(lines: seq<string>) {
    forall i, k :: 0 <= i < k < |lines| ==> |Split(lines[i], ',')| == |Split(lines[k], ',')|
  }

  lemma {:induction false} ReadRecordsIff(lines: seq<string>, width: nat)
    ensures ReadRecords(lines, width).Ok? <==>
              SameWidth(lines) && (width != 0 && lines != [] ==> |Split(lines[0], ',')| == width)
    ensures ReadRecords(lines, width).Ok? ==>
              var records := ReadRecords(lines, width).value;
              |records| == |lines| && forall i :: 0 <= i < |lines| ==> records[i] == Split(lines[i], ',')
  {
    hide Split;
    if lines != [] {
      var rest := lines[1..];
      ReadRecordsIff(rest, |Split(lines[0], ',')|);
      assert SameWidth(lines) <==>
               SameWidth(rest) && (rest != [] ==> |Split(rest[0], ',')| == |Split(lines[0], ',')|) by {
        WidthOfRest(lines);
      }
    }
  }

  lemma WidthOfRest(lines: seq<string>)
    requires lines != []
    ensures SameWidth(lines) <==>
              SameWidth(lines[1..])
              && (|lines| > 1 ==> |Split(lines[1], ',')| == |Split(lines[0], ',')|)
  {
    hide Split;
    var rest := lines[1..];
    if SameWidth(rest) && (|lines| > 1 ==> |Split(lines[1], ',')| == |Split(lines[0], ',')|) {
      forall i, k | 0 <= i < k < |lines|
        ensures |Split(lines[i], ',')| == |Split(lines[k], ',')|
      {
        if i > 0 {
          assert rest[i - 1] == lines[i] && rest[k - 1] == lines[k];
        } else if k > 1 {
          assert rest[0] == lines[1] && rest[k - 1] == lines[k];
        }
      }
    }
  }

  /** A text is readable exactly if it has no quote and all its records have the same
      number of fields; then there is one record per line that is not blank. */
  lemma ReadableIff(text: string)
    ensures
      var lines := RecordLines(Split(text, '\n'));
      && (ReadAll(text).Ok? <==> '"' !in text && SameWidth(lines))
      && (ReadAll(text).Ok? ==>
            |ReadAll(text).value| == |lines|
            && forall i :: 0 <= i < |lines| ==> ReadAll(text).value[i] == Split(lines[i], ','))
  {
    ReadRecordsIff(RecordLines(Split(text, '\n')), 0);
    hide ReadRecords, RecordLines, Split;
  }

  lemma FirstLine(line: string, rest: seq<string>)
    ensures RecordLines([line] + rest)
         == (if DropReturn(line) == [] then [] else [DropReturn(line)]) + RecordLines(rest)
  {
    hide DropReturn;
    assert ([line] + rest)[1..] == rest;
  }

  lemma {:induction false} RecordLinesSplit(a: seq<string>, b: seq<string>)
    ensures RecordLines(a + b) == RecordLines(a) + RecordLines(b)
  {
    if a == [] {
      assert a + b == b;
    } else {
      hide RecordLines, DropReturn;
      var first, rest := [a[0]], a[1..];
      RecordLinesSplit(rest, b);
      FirstLine(a[0], rest);
      FirstLine(a[0], rest + b);
      assert a == first + rest;
      Associate(first, rest, b);
      Associate(if DropReturn(a[0]) == [] then [] else [DropReturn(a[0])], RecordLines(rest), RecordLines(b));
    }
  }

  lemma Associate(a: seq<string>, b: seq<string>, c: seq<string>)
    ensures a + b + c == a + (b + c)
  {
  }

  /** Each line with a carriage return at its end. */
  function WithReturns(lines: seq<string>): (ended: seq<string>)
    ensures |ended| == |lines| && forall i :: 0 <= i < |lines| ==> ended[i] == lines[i] + "\r"
  {
    seq(|lines|, i requires 0 <= i < |lines| => lines[i] + "\r")
  }

  lemma {:induction false} ReturnsDropped(lines: seq<string>)
    requires forall l | l in lines :: '\r' !in l
    ensures RecordLines(WithReturns(lines)) == RecordLines(lines)
  {
    if lines != [] {
      assert lines[0] in lines;
      NoReturn(lines[0]);
      assert (lines[0] + "\r")[..|lines[0]|] == lines[0];
      assert WithReturns(lines)[1..] == WithReturns(lines[1..]);
      ReturnsDropped(lines[1..]);
    }
  }

  /** How lines end, and blank lines between them, make no difference to the records. */
  lemma LineEndsDoNotMatter(before: seq<string>, after: seq<string>)
    requires before + after != []
    requires forall l | l in before + after :: '\n' !in l && '\r' !in l && '"' !in l
    ensures ReadAll(Join(WithReturns(before + after), '\n')) == ReadAll(Join(before + after, '\n'))
    ensures ReadAll(Join(before + [""] + after, '\n')) == ReadAll(Join(before + after, '\n'))
  {
    hide ReadAll, RecordLines, Join, ReadRecords;
    ReturnsDropped(before + after);
    ReadOfLines(before + after);
    ReadOfLines(WithReturns(before + after));
    BlankSkipped(before, after);
    ReadOfLines(before + [""] + after);
  }

  lemma BlankSkipped(before: seq<string>, after: seq<string>)
    ensures RecordLines(before + [""] + after) == RecordLines(before + after)
  {
    assert RecordLines([""]) == [] by { assert [""][1..] == []; }
    hide RecordLines;
    RecordLinesSplit(before, after);
    RecordLinesSplit(before + [""], after);
    RecordLinesSplit(before, [""]);
  }

  lemma ReadOfLines(lines: seq<string>)
    requires lines != [] && forall l | l in lines :: '\n' !in l && '"' !in l
    ensures ReadAll(Join(lines, '\n')) == ReadRecords(RecordLines(lines), 0)
  {
    SplitJoin(lines, '\n');
    JoinAvoids(lines, '\n', '"');
    hide ReadRecords, RecordLines, Join, Split;
  }

  lemma {:induction false} CollectSplit(
    parse: seq<string> -> Option<TelemetryData>, a: seq<seq<string>>, b: seq<seq<string>>)
    ensures Collect(parse, a + b) == Collect(parse, a) + Collect(parse, b)
  {
    if b == [] {
      assert a + b == a;
    } else {
      CollectSplit(parse, a, b[..|b| - 1]);
      assert (a + b)[..|a + b| - 1] == a + b[..|b| - 1];
    }
  }

  /** In a readable text with a row, each row that parses is kept, at the position that
      counts those before it, and a row that does not is passed over: nothing else is
      added, lost or moved. */
  lemma RowsKeptInOrder(codec: TimeCodec, text: string, i: nat)
    requires ReadAll(text).Ok? && 1 <= i < |ReadAll(text).value|
    ensures
      var records := ReadAll(text).value;
      var before, row := Collect(RowParser(codec), records[1..i]), ParseRow(codec, records[i]);
      ParsedDocument(codec, text)
      == Ok(before + (if row.None? then [] else [row.value]) + Collect(RowParser(codec), records[i + 1..]))
  {
    hide ReadAll, ParseRow, Collect, RowParser;
    var records := ReadAll(text).value;
    assert records[1..] == records[1..i] + [records[i]] + records[i + 1..];
    CollectAround(codec, records[1..i], records[i], records[i + 1..]);
  }

  lemma CollectAround(codec: TimeCodec, before: seq<seq<string>>, record: seq<string>, after: seq<seq<string>>)
    ensures
      var parse, row := RowParser(codec), ParseRow(codec, record);
      Collect(parse, before + [record] + after)
      == Collect(parse, before) + (if row.None? then [] else [row.value]) + Collect(parse, after)
  {
    CollectOne(codec, record);
    hide ParseRow, Collect, RowParser;
    CollectSplit(RowParser(codec), before + [record], after);
    CollectSplit(RowParser(codec), before, [record]);
  }

  lemma CollectOne(codec: TimeCodec, record: seq<string>)
    ensures Collect(RowParser(codec), [record])
         == if ParseRow(codec, record).None? then [] else [ParseRow(codec, record).value]
  {
    hide ParseRow;
    assert [record][..0] == [];
  }

  // ----- a codec exists -----

  function DecimalCodec(): TimeCodec {
    TimeCodec(t => if t < 0 then "" else FormatNat(t),
              s => if s == [] || !AllDigits(s) then None else Some(DigitsValue(s)))
  }

  /** The requirement on codecs can be met: writing nanoseconds in decimal does. */
  lemma DecimalCodecIsGood()
    ensures GoodCodec(DecimalCodec())
  {
    var codec := DecimalCodec();
    forall t: Time | Printable(t)
      ensures codec.parse(codec.format(t)) == Some(t) && Clean(codec.format(t)) && codec.format(t) != []
    {
      FormatNatReads(t);
      PrintedDigitsClean(FormatNat(t));
    }
  }
}
