/**
 * The alerting system: three threshold checks over the metrics table, each
 * recording one alert when it fires, and the alert listing with its
 * optional filters.
 */
module Alerting {
  import opened Wrappers
  import opened Query
  import opened Storage
  import opened Stats
  import Performance

  /**
   * `_get_avg_metric`: the average of the series' `limit` newest samples,
   * 0 when there is none.
   */
  function AvgRecent(metrics: seq<MetricRow>, versionId: nat, name: string, limit: int): (r: real)
    ensures AverageOf(r, ValuesOf(NewestFirst(metrics, SeriesOf(versionId, name), limit)))
  {
    var s := ValuesOf(NewestFirst(metrics, SeriesOf(versionId, name), limit));
    AvgIsAverage(s);
    Avg(s)
  }

  /** The samples `_get_avg_metric` averages are the series' newest, at most `limit` of them. */
  lemma AvgRecentDrawsNewest(metrics: seq<MetricRow>, clock: nat, versionId: nat, name: string, limit: int)
    requires Stamped(metrics, MetricTimestamp, clock)
    ensures IsOrderByDescLimit(NewestFirst(metrics, SeriesOf(versionId, name), limit), metrics,
                               SeriesOf(versionId, name), MetricTimestamp, limit)
  {
    StampedAscending(metrics, MetricTimestamp, clock);
    NewestFirstIsOrderByDesc(metrics, SeriesOf(versionId, name), MetricTimestamp, limit);
  }

  /**
   * An average above the threshold has a witness: one of the averaged
   * samples is above it too; with no sample the average is 0, so only a
   * negative threshold is exceeded.
   */
  lemma AboveAverageHasWitness(values: seq<real>, threshold: real)
    requires Avg(values) > threshold
    ensures values == [] ==> threshold < 0.0
    ensures values != [] ==> exists k :: 0 <= k < |values| && values[k] > threshold
  {
    if values != [] {
      AvgBetween(values);
      var m := MaxOf(values);
      var k :| 0 <= k < |values| && values[k] == m;
    }
  }

  /** `_get_error_rate`: the share of failed predictions, 0 when none was tracked. */
  function ErrorRate(metrics: seq<MetricRow>, versionId: nat): (r: real)
    ensures var s := Values(metrics, versionId, "success");
      && (s == [] ==> r == 0.0)
      && (s != [] ==> r * |s| as real == |s| as real - Sum(s))
  {
    var successes := Values(metrics, versionId, "success");
    if |successes| > 0 then
      MultiplyBack(Sum(successes), |successes| as real, Sum(successes) / |successes| as real);
      1.0 - Sum(successes) / |successes| as real
    else 0.0
  }

  /** With 0/1 success samples the error rate is a fraction. */
  lemma ErrorRateBounds(metrics: seq<MetricRow>, versionId: nat)
    requires var s := Values(metrics, versionId, "success"); forall i :: 0 <= i < |s| ==> 0.0 <= s[i] <= 1.0
    ensures 0.0 <= ErrorRate(metrics, versionId) <= 1.0
  {
    var s := Values(metrics, versionId, "success");
    if |s| > 0 {
      SumBetween(s, 0.0, 1.0);
      DivideBetween(Sum(s), |s| as real, 0.0, 1.0);
    }
  }

  /** The alerting error rate and the tracker's success rate read the same series: they add up to 100 %. */
  lemma ErrorRateComplementsSuccessRate(metrics: seq<MetricRow>, versionId: nat)
    requires Values(metrics, versionId, "success") != []
    ensures ErrorRate(metrics, versionId) == 1.0 - Performance.SuccessPercent(Values(metrics, versionId, "success")) / 100.0
  {
  }

  /** `(current_latency - previous_latency) / previous_latency`. */
  function Degradation(current: real, previous: real): real
    requires previous != 0.0
  {
    (current - previous) / previous
  }

  /** A degradation above the threshold: the current latency exceeds the previous one by more than that share. */
  predicate Degraded(current: real, previous: real, threshold: real) {
    previous > 0.0 && Degradation(current, previous) > threshold
  }

  /** The relative test is the same as comparing with the previous latency scaled by 1 + threshold. */
  lemma DegradedMeaning(current: real, previous: real, threshold: real)
    ensures Degraded(current, previous, threshold) <==> previous > 0.0 && current > previous * (1.0 + threshold)
  {
    if previous > 0.0 {
      var d := Degradation(current, previous);
      MultiplyBack(current - previous, previous, d);
      if d > threshold {
        assert previous * d > previous * threshold;
      } else {
        assert previous * d <= previous * threshold;
      }
    }
  }

  /** A row of `get_alerts`: `a.*, v.version, m.name AS model_name`. */
  datatype AlertView = AlertView(row: AlertRow, version: string, modelName: string)

  function ViewAlertedAt(v: AlertView): nat { v.row.timestamp }

  /** `FROM alerts a JOIN versions v ON a.version_id = v.id JOIN models m ON v.model_id = m.id`. */
  function JoinAlertRows(models: seq<ModelRow>, versions: seq<VersionRow>, alerts: seq<AlertRow>): (r: seq<AlertView>)
    requires CatalogOk(models, versions) && AlertsOk(alerts, |versions|)
    ensures |r| == |alerts|
    ensures forall i :: 0 <= i < |r| ==>
      var v := versions[alerts[i].versionId - 1];
      r[i] == AlertView(alerts[i], v.version, OwnerName(models, v))
  {
    seq(|alerts|, i requires 0 <= i < |alerts| =>
      var v := versions[alerts[i].versionId - 1];
      AlertView(alerts[i], v.version, OwnerName(models, v)))
  }

  /** The joined alerts, oldest first; every alert names a registered version, so the join drops none. */
  function JoinAlerts(db: Db): (r: seq<AlertView>)
    reads db`models, db`versions, db`deployments, db`snapshots, db`nextSnapshotId, db`metrics, db`alerts, db`clock
    requires db.Valid()
    ensures r == JoinAlertRows(db.models, db.versions, db.alerts)
    ensures Ascending(r, ViewAlertedAt)
  {
    StampedAscending(db.alerts, AlertTimestamp, db.clock);
    JoinAlertRows(db.models, db.versions, db.alerts)
  }

  /** `if x:` — a filter applies only when given and non-empty. */
  predicate Given(filter: Option<string>) {
    filter.Some? && filter.value != ""
  }

  /** The `WHERE` clause `get_alerts` builds from its three optional filters. */
  function AlertFilter(modelName: Option<string>, version: Option<string>, severity: Option<string>): AlertView -> bool {
    (v: AlertView) =>
      && (Given(modelName) ==> v.modelName == modelName.value)
      && (Given(version) ==> v.version == version.value)
      && (Given(severity) ==> v.row.severity.Name() == severity.value)
  }

  /** `get_alerts`: at most `limit` alerts meeting every given filter, newest first. */
  function GetAlerts(db: Db, modelName: Option<string>, version: Option<string>, severity: Option<string>, limit: int)
    : (r: seq<AlertView>)
    reads db`models, db`versions, db`deployments, db`snapshots, db`nextSnapshotId, db`metrics, db`alerts, db`clock
    requires db.Valid()
    ensures IsOrderByDescLimit(r, JoinAlerts(db), AlertFilter(modelName, version, severity), ViewAlertedAt, limit)
  {
    NewestFirstIsOrderByDesc(JoinAlerts(db), AlertFilter(modelName, version, severity), ViewAlertedAt, limit);
    NewestFirst(JoinAlerts(db), AlertFilter(modelName, version, severity), limit)
  }

  /** Every listed alert matches each filter that was given. */
  lemma ListedAlertsMatch(db: Db, modelName: Option<string>, version: Option<string>, severity: Option<string>, limit: int)
    requires db.Valid()
    ensures var r := GetAlerts(db, modelName, version, severity, limit);
      forall k :: 0 <= k < |r| ==>
        && (Given(modelName) ==> r[k].modelName == modelName.value)
        && (Given(version) ==> r[k].version == version.value)
        && (Given(severity) ==> r[k].row.severity.Name() == severity.value)
  {
    var r := GetAlerts(db, modelName, version, severity, limit);
    OrderByDescDrawsMatches(r, JoinAlerts(db), AlertFilter(modelName, version, severity), ViewAlertedAt, limit);
  }

  /** Every listed alert is a recorded one. */
  lemma ListedAlertsRecorded(db: Db, modelName: Option<string>, version: Option<string>, severity: Option<string>, limit: int)
    requires db.Valid()
    ensures var r := GetAlerts(db, modelName, version, severity, limit);
      forall k :: 0 <= k < |r| ==> r[k].row in db.alerts
  {
    var j := JoinAlerts(db);
    var r := GetAlerts(db, modelName, version, severity, limit);
    OrderByDescDrawsMatches(r, j, AlertFilter(modelName, version, severity), ViewAlertedAt, limit);
    forall k | 0 <= k < |r| ensures r[k].row in db.alerts {
      var i :| 0 <= i < |j| && j[i] == r[k];
      assert r[k].row == db.alerts[i];
    }
  }

  class AlertingSystem {
    const db: Db

    constructor (db: Db)
      ensures this.db == db
    {
      this.db := db;
    }

    /**
     * `check_latency_threshold`: for a registered version, fires exactly when
     * the average of its 10 newest latencies exceeds the threshold, and then
     * records one `latency_high` warning; otherwise records nothing.
     */
    method CheckLatencyThreshold(modelName: string, version: string, threshold: real) returns (fired: bool)
      requires db.Valid()
      modifies db`alerts
      ensures db.Valid()
      ensures Resolve(db.models, db.versions, modelName, version).None? ==> !fired
      ensures Resolve(db.models, db.versions, modelName, version).Some? ==>
        fired == (AvgRecent(db.metrics, Resolve(db.models, db.versions, modelName, version).value, "latency", 10) > threshold)
      ensures fired ==>
        db.alerts == old(db.alerts) + [AlertRow(|old(db.alerts)| + 1, Resolve(db.models, db.versions, modelName, version).value,
                                                LatencyHigh, Warning, db.clock)]
      ensures !fired ==> db.alerts == old(db.alerts)
    {
      var vid := Resolve(db.models, db.versions, modelName, version);
      if vid.None? {
        return false;
      }
      var avgLatency := AvgRecent(db.metrics, vid.value, "latency", 10);
      if avgLatency > threshold {
        var _ := db.InsertAlert(vid.value, LatencyHigh, Warning);
        return true;
      }
      return false;
    }

    /**
     * `check_error_rate_threshold`: fires exactly when the version's error
     * rate exceeds the threshold, and then records one `error_rate_high`
     * critical alert.
     */
    method CheckErrorRateThreshold(modelName: string, version: string, threshold: real) returns (fired: bool)
      requires db.Valid()
      modifies db`alerts
      ensures db.Valid()
      ensures Resolve(db.models, db.versions, modelName, version).None? ==> !fired
      ensures Resolve(db.models, db.versions, modelName, version).Some? ==>
        fired == (ErrorRate(db.metrics, Resolve(db.models, db.versions, modelName, version).value) > threshold)
      ensures fired ==>
        db.alerts == old(db.alerts) + [AlertRow(|old(db.alerts)| + 1, Resolve(db.models, db.versions, modelName, version).value,
                                                ErrorRateHigh, Critical, db.clock)]
      ensures !fired ==> db.alerts == old(db.alerts)
    {
      var vid := Resolve(db.models, db.versions, modelName, version);
      if vid.None? {
        return false;
      }
      var errorRate := ErrorRate(db.metrics, vid.value);
      if errorRate > threshold {
        var _ := db.InsertAlert(vid.value, ErrorRateHigh, Critical);
        return true;
      }
      return false;
    }

    /**
     * `check_performance_degradation`: with both versions registered, fires
     * exactly when the current version's average latency (100 newest
     * samples) exceeds the previous version's, which must be positive, by
     * more than the threshold's share; the alert is recorded on the current version.
     */
    method CheckPerformanceDegradation(modelName: string, currentVersion: string, previousVersion: string, threshold: real)
      returns (fired: bool)
      requires db.Valid()
      modifies db`alerts
      ensures db.Valid()
      ensures (Resolve(db.models, db.versions, modelName, currentVersion).None? ||
               Resolve(db.models, db.versions, modelName, previousVersion).None?) ==> !fired
      ensures (Resolve(db.models, db.versions, modelName, currentVersion).Some? &&
               Resolve(db.models, db.versions, modelName, previousVersion).Some?) ==>
        fired == Degraded(AvgRecent(db.metrics, Resolve(db.models, db.versions, modelName, currentVersion).value, "latency", 100),
                          AvgRecent(db.metrics, Resolve(db.models, db.versions, modelName, previousVersion).value, "latency", 100),
                          threshold)
      ensures fired ==>
        db.alerts == old(db.alerts) + [AlertRow(|old(db.alerts)| + 1, Resolve(db.models, db.versions, modelName, currentVersion).value,
                                                PerformanceDegradation, Warning, db.clock)]
      ensures !fired ==> db.alerts == old(db.alerts)
    {
      var currentId := Resolve(db.models, db.versions, modelName, currentVersion);
      var previousId := Resolve(db.models, db.versions, modelName, previousVersion);
      if currentId.None? || previousId.None? {
        return false;
      }
      var currentLatency := AvgRecent(db.metrics, currentId.value, "latency", 100);
      var previousLatency := AvgRecent(db.metrics, previousId.value, "latency", 100);
      fired := previousLatency > 0.0 && Degradation(currentLatency, previousLatency) > threshold;
      if fired {
        var _ := db.InsertAlert(currentId.value, PerformanceDegradation, Warning);
      }
    }
  }
}
