/** The values that travel through the telemetry pipeline, and the two views of
    a record that the read path takes: one metric, or all of them as a map. */
module Models {

  datatype Option<+T> = None | Some(value: T)

  datatype Result<+T> = Ok(value: T) | Err(error: Error)

  datatype Error =
    | EmptySwitchId
    | SwitchNotFound(id: string)
    | UnknownMetric(name: string)
    | MetricReadFailed(id: string, cause: Error)
    | NoValidData
    | ContextDone
    | RetriesExhausted
    | RegistrationFailed
    | IngestFailed(cause: Error)
    | BadCsv
    | NoDataRows
    | QueueFull
    | QueueTimeout
    | QueueShuttingDown
    | InternalServerError

  /** Nanoseconds since the zero instant of the program's clock. */
  type Time = int

  const ZERO_TIME: Time := 0

  /** Instants whose year is written with four digits (1 to 9999). */
  const TIME_LIMIT: Time := 315537897600 * 1_000_000_000

  predicate Printable(t: Time) {
    0 <= t < TIME_LIMIT
  }

  const INT64_MIN: int := -0x8000_0000_0000_0000
  const INT64_MAX: int := 0x7FFF_FFFF_FFFF_FFFF

  datatype TelemetryData = TelemetryData(
    switchId: string,
    timestamp: Time,
    bandwidthMbps: real,
    latencyMs: real,
    packetErrors: int,
    utilizationPct: real,
    temperatureC: real)

  type MetricType = string

  const METRIC_BANDWIDTH: MetricType := "bandwidth_mbps"
  const METRIC_LATENCY: MetricType := "latency_ms"
  const METRIC_PACKET_ERRORS: MetricType := "packet_errors"
  const METRIC_UTILIZATION: MetricType := "utilization_pct"
  const METRIC_TEMPERATURE: MetricType := "temperature_c"

  const METRICS: set<MetricType> :=
    {METRIC_BANDWIDTH, METRIC_LATENCY, METRIC_PACKET_ERRORS, METRIC_UTILIZATION, METRIC_TEMPERATURE}

  /** A dynamically typed value, as stored in a response map. */
  datatype Value = Text(text: string) | Float(number: real) | Int(count: int)

  function GetMetricValue(td: TelemetryData, metric: MetricType): Result<Value> {
    if metric == METRIC_BANDWIDTH then Ok(Float(td.bandwidthMbps))
    else if metric == METRIC_LATENCY then Ok(Float(td.latencyMs))
    else if metric == METRIC_PACKET_ERRORS then Ok(Int(td.packetErrors))
    else if metric == METRIC_UTILIZATION then Ok(Float(td.utilizationPct))
    else if metric == METRIC_TEMPERATURE then Ok(Float(td.temperatureC))
    else Err(UnknownMetric(metric))
  }

  /** The response map of a record; `clock` prints an instant to the second. */
  function ToMap(td: TelemetryData, clock: Time -> string): map<string, Value> {
    map[
      "switch_id" := Text(td.switchId),
      "timestamp" := Text(clock(td.timestamp)),
      METRIC_BANDWIDTH := Float(td.bandwidthMbps),
      METRIC_LATENCY := Float(td.latencyMs),
      METRIC_PACKET_ERRORS := Int(td.packetErrors),
      METRIC_UTILIZATION := Float(td.utilizationPct),
      METRIC_TEMPERATURE := Float(td.temperatureC)]
  }

  /** The two views agree: a metric is readable on its own exactly when it is one
      of the five metric keys of the map, and then both give the same value. */
  lemma MetricViewsAgree(td: TelemetryData, metric: MetricType, clock: Time -> string)
    ensures GetMetricValue(td, metric).Ok? <==> metric in METRICS
    ensures metric in METRICS ==>
              metric in ToMap(td, clock) && ToMap(td, clock)[metric] == GetMetricValue(td, metric).value
    ensures ToMap(td, clock).Keys == METRICS + {"switch_id", "timestamp"}
  {
    assert METRIC_BANDWIDTH[0] == 'b' && METRIC_LATENCY[0] == 'l' && METRIC_PACKET_ERRORS[0] == 'p';
    assert METRIC_UTILIZATION[0] == 'u' && METRIC_TEMPERATURE[1] == 'e';
    assert "timestamp"[1] == 'i' && "switch_id"[0] == 's';
  }

  /** The two entries of the map that are no metrics. */
  lemma MapNames(td: TelemetryData, clock: Time -> string)
    ensures "switch_id" in ToMap(td, clock) && ToMap(td, clock)["switch_id"] == Text(td.switchId)
    ensures "timestamp" in ToMap(td, clock) && ToMap(td, clock)["timestamp"] == Text(clock(td.timestamp))
  {
    assert METRIC_BANDWIDTH[0] == 'b' && METRIC_LATENCY[0] == 'l' && METRIC_PACKET_ERRORS[0] == 'p';
    assert METRIC_UTILIZATION[0] == 'u' && METRIC_TEMPERATURE[1] == 'e';
    assert "timestamp"[1] == 'i' && "switch_id"[0] == 's' && "timestamp"[0] == 't';
  }

  lemma DistinctMetrics()
    ensures METRIC_BANDWIDTH != METRIC_LATENCY && METRIC_BANDWIDTH != METRIC_PACKET_ERRORS
    ensures METRIC_BANDWIDTH != METRIC_UTILIZATION && METRIC_BANDWIDTH != METRIC_TEMPERATURE
    ensures METRIC_LATENCY != METRIC_PACKET_ERRORS && METRIC_LATENCY != METRIC_UTILIZATION
    ensures METRIC_LATENCY != METRIC_TEMPERATURE && METRIC_PACKET_ERRORS != METRIC_UTILIZATION
    ensures METRIC_PACKET_ERRORS != METRIC_TEMPERATURE && METRIC_UTILIZATION != METRIC_TEMPERATURE
  {
    assert METRIC_BANDWIDTH[0] == 'b' && METRIC_LATENCY[0] == 'l' && METRIC_PACKET_ERRORS[0] == 'p';
    assert METRIC_UTILIZATION[0] == 'u' && METRIC_TEMPERATURE[0] == 't';
  }

  datatype MetricResponse = MetricResponse(switchId: string, metric: MetricType, value: Value, timestamp: Time)

  datatype MetricsListResponse =
    MetricsListResponse(switchId: string, metrics: map<string, Value>, timestamp: Time)

  /** The parts of a `/counters` reply the client uses; a header that was not
      sent is the empty string. */
  datatype Response = Response(generationId: string, dataTimestamp: string, body: string)
}
