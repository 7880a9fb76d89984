/**
 * The SQL aggregates the tracking code asks of the metrics table — COUNT,
 * SUM, AVG, MIN and MAX over the values of one series — on exact reals,
 * with SQL's NULL for an empty series read through Python's `or 0`.
 */
module Stats {
  import opened Query
  import opened Storage

  /** `WHERE version_id = ? AND metric_name = ?`. */
  function SeriesOf(versionId: nat, name: string): MetricRow -> bool {
    (m: MetricRow) => m.versionId == versionId && m.name == name
  }

  /** The `metric_value` column of a list of rows. */
  function ValuesOf(rows: seq<MetricRow>): (r: seq<real>)
    ensures |r| == |rows| && forall i :: 0 <= i < |rows| ==> r[i] == rows[i].value
  {
    seq(|rows|, i requires 0 <= i < |rows| => rows[i].value)
  }

  lemma ValuesOfAppend(rows: seq<MetricRow>, more: seq<MetricRow>)
    ensures ValuesOf(rows + more) == ValuesOf(rows) + ValuesOf(more)
  {
  }

  /** The values of one series, in table order. */
  function Values(metrics: seq<MetricRow>, versionId: nat, name: string): seq<real> {
    ValuesOf(Filter(metrics, SeriesOf(versionId, name)))
  }

  function Sum(s: seq<real>): real {
    if s == [] then 0.0 else Sum(s[..|s| - 1]) + s[|s| - 1]
  }

  function MinOf(s: seq<real>): (m: real)
    requires s != []
    ensures m in s && forall i :: 0 <= i < |s| ==> m <= s[i]
  {
    if |s| == 1 then s[0]
    else
      var m := MinOf(s[..|s| - 1]);
      assert forall i :: 0 <= i < |s| - 1 ==> s[..|s| - 1][i] == s[i];
      if s[|s| - 1] < m then s[|s| - 1] else m
  }

  function MaxOf(s: seq<real>): (m: real)
    requires s != []
    ensures m in s && forall i :: 0 <= i < |s| ==> s[i] <= m
  {
    if |s| == 1 then s[0]
    else
      var m := MaxOf(s[..|s| - 1]);
      assert forall i :: 0 <= i < |s| - 1 ==> s[..|s| - 1][i] == s[i];
      if s[|s| - 1] > m then s[|s| - 1] else m
  }

  /** The sum lies between count·min and count·max. */
  lemma {:induction false} SumBetween(s: seq<real>, lo: real, hi: real)
    requires forall i :: 0 <= i < |s| ==> lo <= s[i] <= hi
    ensures |s| as real * lo <= Sum(s) <= |s| as real * hi
    decreases |s|
  {
    if s != [] {
      var init := s[..|s| - 1];
      assert forall i :: 0 <= i < |init| ==> init[i] == s[i];
      SumBetween(init, lo, hi);
      assert |s| as real * lo == |init| as real * lo + lo;
      assert |s| as real * hi == |init| as real * hi + hi;
    }
  }

  /** Dividing by a positive count keeps the bounds the count multiplied. */
  lemma DivideBetween(sum: real, n: real, lo: real, hi: real)
    requires n > 0.0 && n * lo <= sum <= n * hi
    ensures lo <= sum / n <= hi && sum == n * (sum / n)
  {
  }

  /** `AVG(metric_value) ... or 0`: NULL (no rows) reads as 0. */
  function Avg(s: seq<real>): real {
    if s == [] then 0.0 else Sum(s) / |s| as real
  }

  /** The average of a non-empty series lies between its least and its greatest value. */
  lemma AvgBetween(s: seq<real>)
    requires s != []
    ensures MinOf(s) <= Avg(s) <= MaxOf(s)
  {
    SumBetween(s, MinOf(s), MaxOf(s));
    DivideBetween(Sum(s), |s| as real, MinOf(s), MaxOf(s));
  }

  lemma MultiplyBack(x: real, n: real, a: real)
    requires n != 0.0 && a == x / n
    ensures x == n * a
  {
  }

  /** The sum is the count times the average. */
  lemma SumIsCountTimesAvg(s: seq<real>)
    ensures Sum(s) == |s| as real * Avg(s)
  {
    if s != [] {
      MultiplyBack(Sum(s), |s| as real, Avg(s));
    }
  }

  /** `a` is the average of `s`: 0 for no sample, else within the samples' range and `count * a == sum`. */
  ghost predicate AverageOf(a: real, s: seq<real>) {
    && (s == [] ==> a == 0.0)
    && (s != [] ==> MinOf(s) <= a <= MaxOf(s) && Sum(s) == |s| as real * a)
  }

  /** `Avg` is an average in that sense. */
  lemma AvgIsAverage(s: seq<real>)
    ensures AverageOf(Avg(s), s)
  {
    SumIsCountTimesAvg(s);
    if s != [] {
      AvgBetween(s);
    }
  }

  /** `MIN(metric_value) ... or 0`. */
  function SqlMin(s: seq<real>): real {
    if s == [] then 0.0 else MinOf(s)
  }

  /** `MAX(metric_value) ... or 0`. */
  function SqlMax(s: seq<real>): real {
    if s == [] then 0.0 else MaxOf(s)
  }
}
