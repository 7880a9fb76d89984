/**
 * The metrics collector: one sample appended per call for a registered
 * version, the newest samples of a series read back, and every series of
 * a version summarised by count, average, least, greatest and total.
 * Python's `round` is a parameter: the model states what is rounded, not
 * how floating point rounds it.
 */
module Collector {
  import opened Wrappers
  import opened Query
  import opened Storage
  import opened Stats

  /** The distinct metric names recorded for a version (`SELECT DISTINCT metric_name`), each once. */
  function DistinctNames(metrics: seq<MetricRow>, versionId: nat): (r: seq<string>)
    ensures forall name :: name in r <==>
      exists i :: 0 <= i < |metrics| && metrics[i].versionId == versionId && metrics[i].name == name
    ensures forall i, j :: 0 <= i < j < |r| ==> r[i] != r[j]
    decreases |metrics|
  {
    if metrics == [] then []
    else
      var init, last := metrics[..|metrics| - 1], metrics[|metrics| - 1];
      var names := DistinctNames(init, versionId);
      assert forall i :: 0 <= i < |init| ==> init[i] == metrics[i];
      if last.versionId == versionId && last.name !in names then names + [last.name] else names
  }

  /** One series' summary: `COUNT(*)`, `AVG`, `MIN`, `MAX`, `SUM`, NULLs read as 0. */
  datatype Aggregate = Aggregate(count: nat, avg: real, min: real, max: real, sum: real)

  function Summary(values: seq<real>): Aggregate {
    Aggregate(|values|, Avg(values), SqlMin(values), SqlMax(values), Sum(values))
  }

  /** The summary before rounding: min ≤ avg ≤ max, both bounds samples, for any series with a sample. */
  lemma SummaryBounds(values: seq<real>)
    requires values != []
    ensures var a := Summary(values);
      a.count == |values| >= 1 && a.min <= a.avg <= a.max && a.min in values && a.max in values
  {
    AvgBetween(values);
  }

  /** The summary before rounding: sum = count·avg. */
  lemma SummarySum(values: seq<real>)
    ensures var a := Summary(values); a.sum == a.count as real * a.avg
  {
    SumIsCountTimesAvg(values);
  }

  /** `round(x, 3)` applied to every real of the summary; the count stays exact. */
  function Rounded(a: Aggregate, round: (real, nat) -> real): Aggregate {
    Aggregate(a.count, round(a.avg, 3), round(a.min, 3), round(a.max, 3), round(a.sum, 3))
  }

  /** A name the summary lists has at least one sample. */
  lemma ListedNameHasSamples(metrics: seq<MetricRow>, versionId: nat, name: string)
    requires name in DistinctNames(metrics, versionId)
    ensures Values(metrics, versionId, name) != []
  {
    var i :| 0 <= i < |metrics| && metrics[i].versionId == versionId && metrics[i].name == name;
    FilterMembers(metrics, SeriesOf(versionId, name));
    assert metrics[i] in Filter(metrics, SeriesOf(versionId, name));
  }

  /**
   * `get_recent_metrics`: nothing for an unknown version; otherwise at most
   * `limit` samples of the series, newest first.
   */
  function GetRecentMetrics(db: Db, modelName: string, version: string, name: string, limit: int): (r: seq<MetricRow>)
    reads db`models, db`versions, db`deployments, db`snapshots, db`nextSnapshotId, db`metrics, db`alerts, db`clock
    requires db.Valid()
    ensures Resolve(db.models, db.versions, modelName, version).None? ==> r == []
    ensures Resolve(db.models, db.versions, modelName, version).Some? ==>
      IsOrderByDescLimit(r, db.metrics, SeriesOf(Resolve(db.models, db.versions, modelName, version).value, name),
                         MetricTimestamp, limit)
  {
    match Resolve(db.models, db.versions, modelName, version)
    case None => []
    case Some(vid) =>
      StampedAscending(db.metrics, MetricTimestamp, db.clock);
      NewestFirstIsOrderByDesc(db.metrics, SeriesOf(vid, name), MetricTimestamp, limit);
      NewestFirst(db.metrics, SeriesOf(vid, name), limit)
  }

  class MetricsCollector {
    const db: Db

    constructor (db: Db)
      ensures this.db == db
    {
      this.db := db;
    }

    /** `collect_metric`: an unknown version records nothing; otherwise exactly one sample. */
    method CollectMetric(modelName: string, version: string, name: string, value: real)
      requires db.Valid()
      modifies db`metrics
      ensures db.Valid()
      ensures Resolve(db.models, db.versions, modelName, version).None? ==> db.metrics == old(db.metrics)
      ensures Resolve(db.models, db.versions, modelName, version).Some? ==>
        db.metrics == old(db.metrics) + [MetricRow(Resolve(db.models, db.versions, modelName, version).value, name, value, db.clock)]
    {
      var vid := Resolve(db.models, db.versions, modelName, version);
      if vid.None? {
        return;
      }
      db.InsertMetric(vid.value, name, value);
    }

    /**
     * `get_aggregated_metrics`: None for an unknown version; otherwise one
     * rounded summary per metric name recorded for it, and no other key.
     */
    method GetAggregatedMetrics(modelName: string, version: string, round: (real, nat) -> real)
      returns (r: Option<map<string, Aggregate>>)
      requires CatalogOk(db.models, db.versions)
      ensures r.None? <==> Resolve(db.models, db.versions, modelName, version).None?
      ensures r.Some? ==>
        var vid := Resolve(db.models, db.versions, modelName, version).value;
        && (forall name :: name in r.value <==>
              exists i :: 0 <= i < |db.metrics| && db.metrics[i].versionId == vid && db.metrics[i].name == name)
        && (forall name :: name in r.value ==> r.value[name] == Rounded(Summary(Values(db.metrics, vid, name)), round))
    {
      var vid := Resolve(db.models, db.versions, modelName, version);
      if vid.None? {
        return None;
      }
      var names := DistinctNames(db.metrics, vid.value);
      var aggregated: map<string, Aggregate> := map[];
      var i := 0;
      while i < |names|
        invariant 0 <= i <= |names|
        invariant forall name :: name in aggregated <==> name in names[..i]
        invariant forall name :: name in aggregated ==>
          aggregated[name] == Rounded(Summary(Values(db.metrics, vid.value, name)), round)
      {
        var stats := Summary(Values(db.metrics, vid.value, names[i]));
        aggregated := aggregated[names[i] := Rounded(stats, round)];
        assert names[..i + 1] == names[..i] + [names[i]];
        i := i + 1;
      }
      assert names[..i] == names;
      r := Some(aggregated);
    }
  }
}
