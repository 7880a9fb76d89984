/**
 * The performance tracker: three samples per prediction (`latency`,
 * `tokens`, `success`), a version's summary built from them, the
 * difference between two versions' summaries, and the versions ranked by
 * a score. Python's `round` is a parameter; `int()` truncates toward zero.
 */
module Performance {
  import opened Wrappers
  import opened Query
  import opened Storage
  import opened Stats
  import Registry

  /** What `get_metrics` returns. */
  datatype VersionMetrics = VersionMetrics(
    modelName: string, version: string,
    avgLatency: real, minLatency: real, maxLatency: real,
    avgTokens: real, totalTokens: int,
    totalRequests: nat, successRate: real)

  /** `int(x)`: truncation toward zero. */
  function Trunc(x: real): (n: int)
    ensures 0.0 <= x ==> n as real <= x < n as real + 1.0
    ensures x < 0.0 ==> n as real - 1.0 < x <= n as real
  {
    if x >= 0.0 then x.Floor else -((-x).Floor)
  }

  /** `(successful / total) * 100`, or 0 when there is no `success` sample. */
  function SuccessPercent(successes: seq<real>): (r: real)
    ensures |successes| == 0 ==> r == 0.0
    ensures |successes| > 0 ==> r * |successes| as real == 100.0 * Sum(successes)
  {
    if |successes| > 0 then
      MultiplyBack(Sum(successes), |successes| as real, Sum(successes) / |successes| as real);
      Sum(successes) / |successes| as real * 100.0
    else 0.0
  }

  /** When every `success` sample is 0 or 1, as `track_prediction` writes them, the rate is a percentage. */
  lemma SuccessPercentBounds(successes: seq<real>)
    requires forall i :: 0 <= i < |successes| ==> 0.0 <= successes[i] <= 1.0
    ensures 0.0 <= SuccessPercent(successes) <= 100.0
  {
    if |successes| > 0 {
      SumBetween(successes, 0.0, 1.0);
      DivideBetween(Sum(successes), |successes| as real, 0.0, 1.0);
    }
  }

  /** The three samples `track_prediction` writes for one prediction. */
  function PredictionRows(versionId: nat, latency: real, tokens: real, success: bool, clock: nat): seq<MetricRow> {
    [MetricRow(versionId, "latency", latency, clock),
     MetricRow(versionId, "tokens", tokens, clock),
     MetricRow(versionId, "success", if success then 1.0 else 0.0, clock)]
  }

  /**
   * A tracked prediction is one more request: each of the version's three
   * series gains exactly its own sample, and no other version's series changes.
   */
  lemma PredictionCounted(metrics: seq<MetricRow>, versionId: nat, latency: real, tokens: real, success: bool,
                          clock: nat, other: nat, name: string)
    ensures var after := metrics + PredictionRows(versionId, latency, tokens, success, clock);
      && Values(after, versionId, "latency") == Values(metrics, versionId, "latency") + [latency]
      && Values(after, versionId, "tokens") == Values(metrics, versionId, "tokens") + [tokens]
      && Values(after, versionId, "success") == Values(metrics, versionId, "success") + [if success then 1.0 else 0.0]
      && (other != versionId ==> Values(after, other, name) == Values(metrics, other, name))
  {
    var rows := PredictionRows(versionId, latency, tokens, success, clock);
    forall vid: nat, n: string
      ensures Values(metrics + rows, vid, n) == Values(metrics, vid, n) + ValuesOf(Filter(rows, SeriesOf(vid, n)))
    {
      FilterConcat(metrics, rows, SeriesOf(vid, n));
      ValuesOfAppend(Filter(metrics, SeriesOf(vid, n)), Filter(rows, SeriesOf(vid, n)));
    }
    forall keep: MetricRow -> bool
      ensures Filter(rows, keep) == (if keep(rows[0]) then [rows[0]] else [])
                                    + (if keep(rows[1]) then [rows[1]] else [])
                                    + (if keep(rows[2]) then [rows[2]] else [])
    {
      assert rows == [rows[0]] + [rows[1]] + [rows[2]];
      FilterConcat([rows[0]] + [rows[1]], [rows[2]], keep);
      FilterConcat([rows[0]], [rows[1]], keep);
      assert Filter([rows[0]], keep) == Filter([], keep) + (if keep(rows[0]) then [rows[0]] else []);
      assert Filter([rows[1]], keep) == Filter([], keep) + (if keep(rows[1]) then [rows[1]] else []);
      assert Filter([rows[2]], keep) == Filter([], keep) + (if keep(rows[2]) then [rows[2]] else []);
    }
  }

  /**
   * `get_metrics`: None for an unregistered version; otherwise the rounded
   * latency, token and success figures of its three series.
   */
  function GetMetrics(models: seq<ModelRow>, versions: seq<VersionRow>, metrics: seq<MetricRow>,
                      modelName: string, version: string, round: (real, nat) -> real): (r: Option<VersionMetrics>)
    requires CatalogOk(models, versions)
    ensures r.None? <==> Resolve(models, versions, modelName, version).None?
    ensures r.Some? ==>
      var vid := Resolve(models, versions, modelName, version).value;
      && r.value.modelName == modelName && r.value.version == version
      && r.value.totalRequests == |Values(metrics, vid, "success")|
      && r.value.avgLatency == round(Avg(Values(metrics, vid, "latency")), 3)
      && r.value.minLatency == round(SqlMin(Values(metrics, vid, "latency")), 3)
      && r.value.maxLatency == round(SqlMax(Values(metrics, vid, "latency")), 3)
      && r.value.avgTokens == round(Avg(Values(metrics, vid, "tokens")), 1)
      && r.value.totalTokens == Trunc(Sum(Values(metrics, vid, "tokens")))
      && r.value.successRate == round(SuccessPercent(Values(metrics, vid, "success")), 2)
  {
    match Resolve(models, versions, modelName, version)
    case None => None
    case Some(vid) =>
      var latency, tokens, success :=
        Values(metrics, vid, "latency"), Values(metrics, vid, "tokens"), Values(metrics, vid, "success");
      Some(VersionMetrics(
        modelName, version,
        round(Avg(latency), 3), round(SqlMin(latency), 3), round(SqlMax(latency), 3),
        round(Avg(tokens), 1), Trunc(Sum(tokens)),
        |success|, round(SuccessPercent(success), 2)))
  }

  /** What `compare_versions` returns: both summaries and their differences, second minus first. */
  datatype Comparison = Comparison(first: VersionMetrics, second: VersionMetrics,
                                   latencyDiff: real, tokensDiff: real, successRateDiff: real)

  /**
   * `compare_versions`: None when either version is unregistered;
   * otherwise the differences of the already-rounded figures.
   */
  function CompareVersions(models: seq<ModelRow>, versions: seq<VersionRow>, metrics: seq<MetricRow>,
                           modelName: string, version1: string, version2: string, round: (real, nat) -> real)
    : (r: Option<Comparison>)
    requires CatalogOk(models, versions)
    ensures r.None? <==>
      Resolve(models, versions, modelName, version1).None? || Resolve(models, versions, modelName, version2).None?
    ensures r.Some? ==>
      && Some(r.value.first) == GetMetrics(models, versions, metrics, modelName, version1, round)
      && Some(r.value.second) == GetMetrics(models, versions, metrics, modelName, version2, round)
      && r.value.first.avgLatency + r.value.latencyDiff == r.value.second.avgLatency
      && r.value.first.avgTokens + r.value.tokensDiff == r.value.second.avgTokens
      && r.value.first.successRate + r.value.successRateDiff == r.value.second.successRate
  {
    var m1 := GetMetrics(models, versions, metrics, modelName, version1, round);
    var m2 := GetMetrics(models, versions, metrics, modelName, version2, round);
    if m1.None? || m2.None? then None
    else
      Some(Comparison(m1.value, m2.value,
                      m2.value.avgLatency - m1.value.avgLatency,
                      m2.value.avgTokens - m1.value.avgTokens,
                      m2.value.successRate - m1.value.successRate))
  }

  /** Comparing the other way round swaps the summaries and negates every difference. */
  lemma CompareSwapped(models: seq<ModelRow>, versions: seq<VersionRow>, metrics: seq<MetricRow>,
                       modelName: string, version1: string, version2: string, round: (real, nat) -> real)
    requires CatalogOk(models, versions)
    requires CompareVersions(models, versions, metrics, modelName, version1, version2, round).Some?
    ensures var c := CompareVersions(models, versions, metrics, modelName, version1, version2, round).value;
      var d := CompareVersions(models, versions, metrics, modelName, version2, version1, round);
      && d.Some? && d.value.first == c.second && d.value.second == c.first
      && d.value.latencyDiff == -c.latencyDiff && d.value.tokensDiff == -c.tokensDiff
      && d.value.successRateDiff == -c.successRateDiff
  {
  }

  /** What `get_version_ranking` raises: `1 / avg_latency` on a rounded average of 0. */
  datatype RankError = ZeroAverageLatency(version: string)

  /** A ranked summary: `metrics` with its `performance_score`. */
  datatype Ranked = Ranked(metrics: VersionMetrics, score: real)

  /** `_get_all_versions`: the model's version strings, in scan order. */
  function AllVersions(models: seq<ModelRow>, versions: seq<VersionRow>, modelName: string): (r: seq<string>)
    ensures |r| <= |versions|
  {
    var owned := Filter(versions, Registry.OwnedBy(models, modelName));
    seq(|owned|, i requires 0 <= i < |owned| => owned[i].version)
  }

  /** `_get_all_versions` lists a version string exactly when the model has a row with that version. */
  lemma AllVersionsMembers(models: seq<ModelRow>, versions: seq<VersionRow>, modelName: string, version: string)
    ensures version in AllVersions(models, versions, modelName) <==> exists k :: IsVersionOf(models, versions, k, modelName, version)
  {
    var keep := Registry.OwnedBy(models, modelName);
    var owned := Filter(versions, keep);
    var r := AllVersions(models, versions, modelName);
    FilterMembers(versions, keep);
    if version in r {
      var i :| 0 <= i < |r| && r[i] == version;
      assert owned[i] in multiset(owned);
      var k :| 0 <= k < |versions| && versions[k] == owned[i];
      assert IsVersionOf(models, versions, k, modelName, version);
    }
    if k :| IsVersionOf(models, versions, k, modelName, version) {
      assert keep(versions[k]);
      var i :| 0 <= i < |owned| && owned[i] == versions[k];
      assert r[i] == version;
    }
  }

  /** Lower latency and a higher success rate score better. */
  function Score(m: VersionMetrics): real
    requires m.avgLatency != 0.0
  {
    (1.0 / m.avgLatency) * (m.successRate / 100.0)
  }

  /** The step of the ranking loop for one version: skipped, ranked, or raising. */
  function RankOne(m: Option<VersionMetrics>, version: string, round: (real, nat) -> real)
    : (r: Result<seq<Ranked>, RankError>)
    ensures r.Err? <==> m.Some? && m.value.totalRequests > 0 && m.value.avgLatency == 0.0
    ensures r.Err? ==> r.error == ZeroAverageLatency(version)
    ensures r.Ok? ==> |r.value| <= 1 && (r.value != [] <==> m.Some? && m.value.totalRequests > 0)
    ensures r.Ok? && r.value != [] ==>
      r.value[0].metrics == m.value && m.value.avgLatency != 0.0 && r.value[0].score == round(Score(m.value), 3)
  {
    if m.None? || m.value.totalRequests == 0 then Ok([])
    else if m.value.avgLatency == 0.0 then Err(ZeroAverageLatency(version))
    else Ok([Ranked(m.value, round(Score(m.value), 3))])
  }

  /** The list the ranking loop builds over the given version strings, or the first error. */
  function Candidates(models: seq<ModelRow>, versions: seq<VersionRow>, metrics: seq<MetricRow>,
                      modelName: string, names: seq<string>, round: (real, nat) -> real): (r: Result<seq<Ranked>, RankError>)
    requires CatalogOk(models, versions)
    ensures r.Ok? ==> forall k :: 0 <= k < |r.value| ==> r.value[k].metrics.totalRequests > 0
    decreases |names|
  {
    if names == [] then Ok([])
    else
      match Candidates(models, versions, metrics, modelName, names[..|names| - 1], round)
      case Err(e) => Err(e)
      case Ok(prefix) =>
        match RankOne(GetMetrics(models, versions, metrics, modelName, names[|names| - 1], round), names[|names| - 1], round)
        case Err(e) => Err(e)
        case Ok(entry) => Ok(prefix + entry)
  }

  ghost predicate ScoreDescending(s: seq<Ranked>) {
    forall i, j :: 0 <= i < j < |s| ==> s[i].score >= s[j].score
  }

  /** One step of `sort(key=score, reverse=True)`: `x` goes after every entry scoring at least as much. */
  function InsertByScore(x: Ranked, s: seq<Ranked>): (r: seq<Ranked>)
    ensures multiset(r) == multiset(s) + multiset{x}
    decreases |s|
  {
    if s == [] then [x]
    else if s[0].score < x.score then
      assert [x] + s == [x] + [s[0]] + s[1..];
      [x] + s
    else
      assert s == [s[0]] + s[1..];
      [s[0]] + InsertByScore(x, s[1..])
  }

  /** Inserting into a list sorted by descending score keeps it sorted. */
  lemma {:induction false} InsertKeepsDescending(x: Ranked, s: seq<Ranked>)
    requires ScoreDescending(s)
    ensures ScoreDescending(InsertByScore(x, s))
    decreases |s|
  {
    if s != [] && s[0].score >= x.score {
      var rest := InsertByScore(x, s[1..]);
      InsertKeepsDescending(x, s[1..]);
      forall k | 0 <= k < |rest| ensures s[0].score >= rest[k].score {
        assert rest[k] in multiset(rest);
        if rest[k] != x {
          assert rest[k] in multiset(s[1..]);
          var j :| 0 <= j < |s[1..]| && s[1..][j] == rest[k];
          assert s[j + 1] == rest[k];
        }
      }
    }
  }

  /** `version_metrics.sort(key=lambda x: x['performance_score'], reverse=True)`. */
  function SortByScore(s: seq<Ranked>): (r: seq<Ranked>)
    ensures ScoreDescending(r) && multiset(r) == multiset(s)
    decreases |s|
  {
    if s == [] then []
    else
      assert s == s[..|s| - 1] + [s[|s| - 1]];
      InsertKeepsDescending(s[|s| - 1], SortByScore(s[..|s| - 1]));
      InsertByScore(s[|s| - 1], SortByScore(s[..|s| - 1]))
  }

  class PerformanceTracker {
    const db: Db

    constructor (db: Db)
      ensures this.db == db
    {
      this.db := db;
    }

    /**
     * `track_prediction`: an unregistered version records nothing; otherwise
     * exactly three samples, latency, tokens and success (1 or 0), in that order.
     */
    method TrackPrediction(modelName: string, version: string, latency: real, tokens: real, success: bool)
      requires db.Valid()
      modifies db`metrics
      ensures db.Valid()
      ensures Resolve(db.models, db.versions, modelName, version).None? ==> db.metrics == old(db.metrics)
      ensures Resolve(db.models, db.versions, modelName, version).Some? ==>
        var vid := Resolve(db.models, db.versions, modelName, version).value;
        db.metrics == old(db.metrics) + PredictionRows(vid, latency, tokens, success, db.clock)
    {
      var vid := Resolve(db.models, db.versions, modelName, version);
      if vid.None? {
        return;
      }
      RecordPrediction(vid.value, latency, tokens, success);
    }

    /** The three `_track_metric` calls of one prediction. */
    method RecordPrediction(versionId: nat, latency: real, tokens: real, success: bool)
      requires db.Valid()
      modifies db`metrics
      ensures db.Valid()
      ensures db.metrics == old(db.metrics) + PredictionRows(versionId, latency, tokens, success, db.clock)
    {
      var rows := PredictionRows(versionId, latency, tokens, success, db.clock);
      StampedAppend(db.metrics, rows[0], MetricTimestamp, db.clock);
      StampedAppend(db.metrics + [rows[0]], rows[1], MetricTimestamp, db.clock);
      StampedAppend(db.metrics + [rows[0]] + [rows[1]], rows[2], MetricTimestamp, db.clock);
      assert db.metrics + [rows[0]] + [rows[1]] + [rows[2]] == db.metrics + rows;
      db.metrics := db.metrics + rows;
      LogWriteKeepsValid(db);
    }

    /** The loop of `get_version_ranking`: each version with requests, in order, with its score. */
    method ScoreVersions(modelName: string, names: seq<string>, round: (real, nat) -> real)
      returns (r: Result<seq<Ranked>, RankError>)
      requires CatalogOk(db.models, db.versions)
      ensures r == Candidates(db.models, db.versions, db.metrics, modelName, names, round)
    {
      var ranked: seq<Ranked> := [];
      var i := 0;
      while i < |names|
        invariant 0 <= i <= |names|
        invariant Candidates(db.models, db.versions, db.metrics, modelName, names[..i], round) == Ok(ranked)
      {
        var metrics := GetMetrics(db.models, db.versions, db.metrics, modelName, names[i], round);
        CandidatesStep(db.models, db.versions, db.metrics, modelName, names, i, ranked, round);
        if metrics.Some? && metrics.value.totalRequests > 0 {
          if metrics.value.avgLatency == 0.0 {
            LaterStepsKeepError(db.models, db.versions, db.metrics, modelName, names, i + 1, round);
            return Err(ZeroAverageLatency(names[i]));
          }
          var score := round(Score(metrics.value), 3);
          assert RankOne(metrics, names[i], round) == Ok([Ranked(metrics.value, score)]);
          ranked := ranked + [Ranked(metrics.value, score)];
        } else {
          assert RankOne(metrics, names[i], round) == Ok([]);
          assert ranked + [] == ranked;
        }
        i := i + 1;
      }
      assert names[..i] == names;
      r := Ok(ranked);
    }

    /**
     * `get_version_ranking`: every version of the model with at least one
     * request, highest score first; a rounded average latency of 0 raises.
     */
    method GetVersionRanking(modelName: string, round: (real, nat) -> real) returns (r: Result<seq<Ranked>, RankError>)
      requires CatalogOk(db.models, db.versions)
      ensures var c := Candidates(db.models, db.versions, db.metrics, modelName,
                                  AllVersions(db.models, db.versions, modelName), round);
        && (r.Err? <==> c.Err?)
        && (r.Err? ==> r == Err(c.error))
        && (r.Ok? ==> ScoreDescending(r.value) && multiset(r.value) == multiset(c.value))
      ensures r.Ok? ==> forall k :: 0 <= k < |r.value| ==> r.value[k].metrics.totalRequests > 0
    {
      var names := AllVersions(db.models, db.versions, modelName);
      var candidates := ScoreVersions(modelName, names, round);
      if candidates.Err? {
        return Err(candidates.error);
      }
      var sorted := SortByScore(candidates.value);
      forall k | 0 <= k < |sorted| ensures sorted[k].metrics.totalRequests > 0 {
        assert sorted[k] in multiset(candidates.value);
      }
      r := Ok(sorted);
    }
  }

  /** One more version name: the list so far, extended by that version's step. */
  lemma CandidatesStep(models: seq<ModelRow>, versions: seq<VersionRow>, metrics: seq<MetricRow>,
                       modelName: string, names: seq<string>, i: nat, prefix: seq<Ranked>, round: (real, nat) -> real)
    requires CatalogOk(models, versions) && i < |names|
    requires Candidates(models, versions, metrics, modelName, names[..i], round) == Ok(prefix)
    ensures var step := RankOne(GetMetrics(models, versions, metrics, modelName, names[i], round), names[i], round);
      Candidates(models, versions, metrics, modelName, names[..i + 1], round)
        == if step.Ok? then Ok(prefix + step.value) else Err(step.error)
  {
    assert names[..i + 1][..i] == names[..i];
  }

  /** Once the loop has raised on a prefix, the whole list raises the same error. */
  lemma {:induction false} LaterStepsKeepError(models: seq<ModelRow>, versions: seq<VersionRow>, metrics: seq<MetricRow>,
                                               modelName: string, names: seq<string>, n: nat, round: (real, nat) -> real)
    requires CatalogOk(models, versions) && n <= |names|
    requires Candidates(models, versions, metrics, modelName, names[..n], round).Err?
    ensures Candidates(models, versions, metrics, modelName, names, round)
         == Candidates(models, versions, metrics, modelName, names[..n], round)
    decreases |names| - n
  {
    if n < |names| {
      assert names[..n + 1][..n] == names[..n];
      LaterStepsKeepError(models, versions, metrics, modelName, names, n + 1, round);
    } else {
      assert names[..n] == names;
    }
  }
}
