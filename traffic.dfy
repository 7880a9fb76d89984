/**
 * The `traffic` table and the four statements the core issues against it.
 * No constraint of the database's `Valid` mentions this table, so these
 * writes preserve `Valid` by their frames alone. The table's primary key is an AUTOINCREMENT id and `version_id` is not
 * unique, so `INSERT OR REPLACE INTO traffic (version_id, percentage)`
 * never meets a conflict and always appends a row. The one reader,
 * `_get_traffic_config`, takes the first row SQLite's scan yields with no
 * ORDER BY; the model assumes that scan follows insertion order.
 */
module Traffic {
  import opened Wrappers
  import opened Storage

  /** The rows appended by writing `percentages` in turn to version `vid`; nothing when the version did not resolve. */
  function Written(vid: Option<nat>, percentages: seq<int>): (r: seq<TrafficRow>)
    ensures vid.None? ==> r == []
    ensures vid.Some? ==> |r| == |percentages|
  {
    match vid
    case None => []
    case Some(v) => seq(|percentages|, i requires 0 <= i < |percentages| => TrafficRow(v, percentages[i]))
  }

  lemma WrittenConcat(vid: Option<nat>, a: seq<int>, b: seq<int>)
    ensures Written(vid, a + b) == Written(vid, a) + Written(vid, b)
  {
    if vid.Some? {
      var l, r := Written(vid, a + b), Written(vid, a) + Written(vid, b);
      assert |l| == |r|;
      forall i | 0 <= i < |l| ensures l[i] == r[i] {
        if i < |a| { assert (a + b)[i] == a[i]; } else { assert (a + b)[i] == b[i - |a|]; }
      }
    }
  }

  /** One more write extends the series: the step the strategies' proofs take after each `_set_traffic`. */
  lemma WrittenStep(rows: seq<TrafficRow>, vid: Option<nat>, percentages: seq<int>, i: nat)
    requires i < |percentages|
    ensures rows + Written(vid, percentages[..i]) + Written(vid, [percentages[i]]) == rows + Written(vid, percentages[..i + 1])
  {
    WrittenConcat(vid, percentages[..i], [percentages[i]]);
    assert percentages[..i] + [percentages[i]] == percentages[..i + 1];
  }

  /** Two single writes in a row: the later one is its version's current traffic, and the earlier one stays current for its own version. */
  lemma TwoWrites(rows: seq<TrafficRow>, first: TrafficRow, second: TrafficRow)
    ensures rows + Written(Some(first.versionId), [first.percentage]) + Written(Some(second.versionId), [second.percentage])
            == rows + [first, second]
    ensures CurrentTraffic(rows + [first, second], second.versionId) == second.percentage
    ensures first.versionId != second.versionId ==> CurrentTraffic(rows + [first, second], first.versionId) == first.percentage
  {
    assert Written(Some(first.versionId), [first.percentage]) == [first];
    assert Written(Some(second.versionId), [second.percentage]) == [second];
    assert (rows + [first, second])[..|rows| + 1] == rows + [first];
  }

  /** `_get_traffic_config`: the percentage of the first row for `vid`, or 0 when there is none. */
  function TrafficOf(rows: seq<TrafficRow>, vid: nat): (p: int)
    ensures (forall i :: 0 <= i < |rows| ==> rows[i].versionId != vid) ==> p == 0
    ensures forall i :: (0 <= i < |rows| && rows[i].versionId == vid &&
                         (forall j :: 0 <= j < i ==> rows[j].versionId != vid)) ==> p == rows[i].percentage
  {
    if rows == [] then 0
    else if rows[0].versionId == vid then rows[0].percentage
    else
      var p := TrafficOf(rows[1..], vid);
      assert forall i :: 1 <= i < |rows| ==> rows[1..][i - 1] == rows[i];
      p
  }

  /** The percentage most recently written for `vid`, or 0 when none was: what the writers mean by "the traffic". */
  ghost function CurrentTraffic(rows: seq<TrafficRow>, vid: nat): int {
    if rows == [] then 0
    else if rows[|rows| - 1].versionId == vid then rows[|rows| - 1].percentage
    else CurrentTraffic(rows[..|rows| - 1], vid)
  }

  /** After writing a non-empty series to `vid`, its current traffic is the last value written. */
  lemma CurrentAfterWrites(rows: seq<TrafficRow>, vid: nat, percentages: seq<int>)
    requires percentages != []
    ensures CurrentTraffic(rows + Written(Some(vid), percentages), vid) == percentages[|percentages| - 1]
  {
    var all := rows + Written(Some(vid), percentages);
    assert all[|all| - 1] == TrafficRow(vid, percentages[|percentages| - 1]);
  }

  /** Appending rows of other versions leaves the current traffic of `vid` unchanged. */
  lemma {:induction false} CurrentUntouched(rows: seq<TrafficRow>, extra: seq<TrafficRow>, vid: nat)
    requires forall i :: 0 <= i < |extra| ==> extra[i].versionId != vid
    ensures CurrentTraffic(rows + extra, vid) == CurrentTraffic(rows, vid)
    decreases |extra|
  {
    if extra != [] {
      var init, all := extra[..|extra| - 1], rows + extra;
      assert all[..|all| - 1] == rows + init;
      assert all[|all| - 1] == extra[|extra| - 1];
      CurrentUntouched(rows, init, vid);
      assert CurrentTraffic(all, vid) == CurrentTraffic(rows + init, vid);
    } else {
      assert rows + extra == rows;
    }
  }

  /**
   * The reader sees the first row, so once a version has any traffic row,
   * later writes for it are invisible to `_get_traffic_config`.
   */
  lemma {:induction false} FirstRowWins(rows: seq<TrafficRow>, extra: seq<TrafficRow>, vid: nat)
    requires exists i :: 0 <= i < |rows| && rows[i].versionId == vid
    ensures TrafficOf(rows + extra, vid) == TrafficOf(rows, vid)
    decreases |rows|
  {
    if rows[0].versionId != vid {
      var i :| 0 <= i < |rows| && rows[i].versionId == vid;
      assert rows[1..][i - 1].versionId == vid;
      assert (rows + extra)[1..] == rows[1..] + extra;
      FirstRowWins(rows[1..], extra, vid);
    }
  }

  /** Rows zeroed by an `UPDATE traffic SET percentage = 0 WHERE version_id IN (...)`, `cleared` giving the set. */
  function ZeroWhere(rows: seq<TrafficRow>, cleared: nat -> bool): (r: seq<TrafficRow>)
    ensures |r| == |rows|
    ensures forall i :: 0 <= i < |r| ==>
      r[i] == if cleared(rows[i].versionId) then rows[i].(percentage := 0) else rows[i]
  {
    if rows == [] then []
    else
      var last := rows[|rows| - 1];
      ZeroWhere(rows[..|rows| - 1], cleared) + [if cleared(last.versionId) then last.(percentage := 0) else last]
  }

  /** After zeroing, a cleared version reads 0 both to the reader and as its current traffic. */
  lemma {:induction false} ZeroedReadsZero(rows: seq<TrafficRow>, cleared: nat -> bool, vid: nat)
    requires cleared(vid)
    ensures CurrentTraffic(ZeroWhere(rows, cleared), vid) == 0
    ensures TrafficOf(ZeroWhere(rows, cleared), vid) == 0
    decreases |rows|
  {
    if rows != [] {
      var z := ZeroWhere(rows, cleared);
      var init := rows[..|rows| - 1];
      assert z[..|z| - 1] == ZeroWhere(init, cleared);
      ZeroedReadsZero(init, cleared, vid);
      FirstOrZero(z, vid);
    }
  }

  /** When every row of `vid` has percentage 0, the reader returns 0. */
  lemma {:induction false} FirstOrZero(rows: seq<TrafficRow>, vid: nat)
    requires forall i :: 0 <= i < |rows| && rows[i].versionId == vid ==> rows[i].percentage == 0
    ensures TrafficOf(rows, vid) == 0
    decreases |rows|
  {
    if rows != [] && rows[0].versionId != vid {
      assert forall i :: 0 <= i < |rows[1..]| ==> rows[1..][i] == rows[i + 1];
      FirstOrZero(rows[1..], vid);
    }
  }

  /** Versions outside the cleared set keep both their reader value and their current traffic. */
  lemma {:induction false} ZeroKeeps(rows: seq<TrafficRow>, cleared: nat -> bool, vid: nat)
    requires !cleared(vid)
    ensures CurrentTraffic(ZeroWhere(rows, cleared), vid) == CurrentTraffic(rows, vid)
    ensures TrafficOf(ZeroWhere(rows, cleared), vid) == TrafficOf(rows, vid)
    decreases |rows|
  {
    if rows != [] {
      var z := ZeroWhere(rows, cleared);
      var init := rows[..|rows| - 1];
      assert z[..|z| - 1] == ZeroWhere(init, cleared);
      ZeroKeeps(init, cleared, vid);
      assert z[1..] == ZeroWhere(rows[1..], cleared);
      ZeroKeepsFirst(rows, cleared, vid);
    }
  }

  lemma {:induction false} ZeroKeepsFirst(rows: seq<TrafficRow>, cleared: nat -> bool, vid: nat)
    requires !cleared(vid)
    ensures TrafficOf(ZeroWhere(rows, cleared), vid) == TrafficOf(rows, vid)
    decreases |rows|
  {
    if rows != [] {
      var z := ZeroWhere(rows, cleared);
      assert z[1..] == ZeroWhere(rows[1..], cleared);
      ZeroKeepsFirst(rows[1..], cleared, vid);
    }
  }

  /** Version id `vid` is a version of model `name` other than `keep`: the subquery of `_clear_other_traffic`. */
  predicate IsOtherVersion(models: seq<ModelRow>, versions: seq<VersionRow>, name: string, keep: string, vid: nat) {
    1 <= vid <= |versions| && 1 <= versions[vid - 1].modelId <= |models|
    && OwnerName(models, versions[vid - 1]) == name && versions[vid - 1].version != keep
  }

  /** The subquery as a set of version ids. */
  function OtherVersions(models: seq<ModelRow>, versions: seq<VersionRow>, name: string, keep: string): nat -> bool {
    (vid: nat) => IsOtherVersion(models, versions, name, keep, vid)
  }

  /** `_set_traffic` (identical in every strategy and in the rollback manager): resolve, then append one row. */
  method SetTraffic(db: Db, modelName: string, version: string, percentage: int)
    requires CatalogOk(db.models, db.versions)
    modifies db`traffic
    ensures db.traffic == old(db.traffic) + Written(Resolve(db.models, db.versions, modelName, version), [percentage])
  {
    var vid := Resolve(db.models, db.versions, modelName, version);
    match vid {
      case None =>
      case Some(v) => db.traffic := db.traffic + [TrafficRow(v, percentage)];
    }
  }

  /** `_restore_traffic`: append a row by version id, with no lookup. */
  method InsertTraffic(db: Db, vid: nat, percentage: int)
    modifies db`traffic
    ensures db.traffic == old(db.traffic) + [TrafficRow(vid, percentage)]
  {
    db.traffic := db.traffic + [TrafficRow(vid, percentage)];
  }

  /** `_clear_other_traffic`: zero every traffic row of every other version of the model. */
  method ClearOtherTraffic(db: Db, modelName: string, keepVersion: string)
    modifies db`traffic
    ensures db.traffic == ZeroWhere(old(db.traffic), OtherVersions(db.models, db.versions, modelName, keepVersion))
  {
    db.traffic := ZeroWhere(db.traffic, OtherVersions(db.models, db.versions, modelName, keepVersion));
  }
}
