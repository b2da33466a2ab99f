/** What the direct reads return, over whole histories of the cache: the last record
    written, whichever way it is read. */
module Reads {
  import opened Models
  import opened Cache
  import opened Service

  // ----- the three ways to read agree -----

  /** Reading one metric gives the entry of that name in the switch's response map, and
      is refused exactly if the name is none of the five. */
  lemma MetricIsMapEntry(c: Entries, d: Entries, id: string, metric: MetricType, clock: Time -> string, now: Time)
    requires id != "" && id in c.data
    ensures SwitchMetrics(c, id, clock).Ok?
    ensures SingleMetric(c, d, id, metric, now).Ok? <==> metric in METRICS
    ensures metric in METRICS ==>
              && metric in SwitchMetrics(c, id, clock).value.metrics
              && SingleMetric(c, d, id, metric, now).value.value == SwitchMetrics(c, id, clock).value.metrics[metric]
              && SingleMetric(c, d, id, metric, now).value.metric == metric
              && SingleMetric(c, d, id, metric, now).value.switchId == id
    ensures metric !in METRICS ==>
              SingleMetric(c, d, id, metric, now) == Err(MetricReadFailed(id, UnknownMetric(metric)))
  {
    MetricViewsAgree(c.data[id], metric, clock);
    hide ToMap;
  }

  /** Reading one switch gives its entry of the report on all switches. */
  lemma SwitchReadIsReportEntry(
    c: Entries, report: seq<MetricsListResponse>, r: MetricsListResponse, clock: Time -> string)
    requires Consistent(c) && IsReport(c, report, clock)
    ensures r in report ==> SwitchMetrics(c, r.switchId, clock) == Ok(r)
    ensures forall id | id != "" :: SwitchMetrics(c, id, clock).Ok? <==> exists e :: e in report && e.switchId == id
    ensures forall i, k :: 0 <= i < k < |report| ==> report[i].switchId != report[k].switchId
  {
    hide ToMap;
    ReportNamesOnce(c, report, clock);
  }

  /** As many entries as switches, and every switch has one: none has two. */
  lemma ReportNamesOnce(c: Entries, report: seq<MetricsListResponse>, clock: Time -> string)
    requires IsReport(c, report, clock)
    ensures forall i, k :: 0 <= i < k < |report| ==> report[i].switchId != report[k].switchId
  {
    hide ToMap;
    forall i, k | 0 <= i < k < |report|
      ensures report[i].switchId != report[k].switchId
    {
      if report[i].switchId == report[k].switchId {
        var rest := report[..k] + report[k + 1..];
        forall id | id in c.data
          ensures exists m :: 0 <= m < |rest| && rest[m].switchId == id
        {
          var e :| e in report && e.switchId == id;
          var n :| 0 <= n < |report| && report[n] == e;
          var m := if n == k then i else if n < k then n else n - 1;
          assert rest[m].switchId == id;
        }
        assert |c.data.Keys| == |c.data|;
        NamesBound(c.data.Keys, rest);
      }
    }
  }

  lemma {:induction false} NamesBound(ids: set<string>, entries: seq<MetricsListResponse>)
    requires forall id | id in ids :: exists m :: 0 <= m < |entries| && entries[m].switchId == id
    ensures |ids| <= |entries|
  {
    if ids != {} {
      var n := |entries| - 1;
      assert n >= 0 by {
        var id :| id in ids;
        var m :| 0 <= m < |entries| && entries[m].switchId == id;
      }
      var fewer := ids - {entries[n].switchId};
      forall id | id in fewer
        ensures exists m :: 0 <= m < n && entries[..n][m].switchId == id
      {
        var m :| 0 <= m < |entries| && entries[m].switchId == id;
        assert entries[..n][m].switchId == id;
      }
      NamesBound(fewer, entries[..n]);
    }
  }

  // ----- the record that is read -----

  /** What is kept of a written record: everything, under the ID it was written to, with
      the given instant in place of a missing timestamp. */
  lemma StoredKeeps(id: string, record: TelemetryData, fallback: Time, metric: MetricType)
    ensures
      var kept := Stored(id, record, fallback);
      && kept.switchId == id && GetMetricValue(kept, metric) == GetMetricValue(record, metric)
      && kept.timestamp == (if record.timestamp == ZERO_TIME then fallback else record.timestamp)
  {
  }

  /** After any history, a read of a switch returns the last record written for it since
      its last removal, with the time at which that record arrived, or the current time if
      it arrived at the zero instant; without such a record the switch is not found. */
  lemma ReadsLastWrite(history: seq<Event>, id: string, metric: MetricType, clock: Time -> string, now: Time)
    ensures forall i: nat | Survives(history, i, id) ::
              && id != ""
              && var record := Written(history[i], id).value;
                && SwitchMetrics(Replay(history), id, clock)
                   == Ok(MetricsListResponse(id, ToMap(record, clock), record.timestamp))
                && SingleMetric(Replay(history), Replay(history), id, metric, now)
                   == match GetMetricValue(record, metric)
                      case Err(e) => Err(MetricReadFailed(id, e))
                      case Ok(v) =>
                        Ok(MetricResponse(id, metric, v, if history[i].now == ZERO_TIME then now else history[i].now))
    ensures (forall i: nat :: !Survives(history, i, id)) ==>
              var error := if id == "" then EmptySwitchId else MetricReadFailed(id, SwitchNotFound(id));
              && SwitchMetrics(Replay(history), id, clock) == Err(error)
              && SingleMetric(Replay(history), Replay(history), id, metric, now) == Err(error)
  {
    EntryIsLastWrite(history, id);
    ReplayConsistent(history);
    hide Replay, ToMap, GetMetricValue;
  }

  /** A record is read back as it was written, by name of each metric, with its own
      timestamp or the one filled in; no other switch reads differently than before. */
  lemma ReadYourWrite(
    c: Entries, id: string, record: TelemetryData, fallback: Time, now: Time, clock: Time -> string, other: string,
    metric: MetricType, later: Time)
    requires Consistent(c) && id != ""
    ensures
      var c' := Put(c, id, record, fallback, now);
      && SwitchMetrics(c', id, clock).Ok?
      && var r := SwitchMetrics(c', id, clock).value;
        && (forall m | m in METRICS :: m in r.metrics && GetMetricValue(record, m) == Ok(r.metrics[m]))
        && r.switchId == id && "switch_id" in r.metrics && r.metrics["switch_id"] == Text(id)
        && r.timestamp == (if record.timestamp == ZERO_TIME then fallback else record.timestamp)
        && "timestamp" in r.metrics && r.metrics["timestamp"] == Text(clock(r.timestamp))
    ensures
      var c' := Put(c, id, record, fallback, now);
      other != id ==>
        && SwitchMetrics(c', other, clock) == SwitchMetrics(c, other, clock)
        && SingleMetric(c', c', other, metric, later) == SingleMetric(c, c, other, metric, later)
  {
    var kept := Stored(id, record, fallback);
    MapNames(kept, clock);
    forall m | m in METRICS
      ensures m in ToMap(kept, clock) && GetMetricValue(record, m) == Ok(ToMap(kept, clock)[m])
    {
      MetricViewsAgree(kept, m, clock);
      StoredKeeps(id, record, fallback, m);
    }
    hide ToMap, GetMetricValue;
  }

  /** After a bulk call every switch it names reads as its last record in the call. */
  lemma CallIsServed(c: Entries, data: seq<TelemetryData>, now: Time, id: string, clock: Time -> string)
    requires id != "" && id in LastPerSwitch(data) && LastPerSwitch(data)[id].timestamp != ZERO_TIME
    ensures
      var last := LastPerSwitch(data)[id];
      SwitchMetrics(PutEach(c, data, now), id, clock) == Ok(MetricsListResponse(id, ToMap(last, clock), last.timestamp))
  {
    BulkIsSequential(c, data, now);
    LastPerSwitchIsLast(data, id);
    hide LastPerSwitch, PutEach, ToMap;
  }
}
