/**
 * The rollback manager: moves traffic back to the previous completed
 * deployment, to a named version, or to what a snapshot captured, and
 * triggers the first of these when the error rate exceeds a threshold.
 */
module Rollback {
  import opened Wrappers
  import opened Query
  import opened Storage
  import opened Traffic
  import opened Deployments
  import opened Snapshots

  /** `_get_recent_deployments`: the model's completed deployments, newest first, at most `limit`. */
  function RecentDeployments(db: Db, modelName: string, limit: int): (r: seq<DeploymentView>)
    reads db`models, db`versions, db`deployments, db`snapshots, db`nextSnapshotId, db`metrics, db`alerts, db`clock
    requires db.Valid()
    ensures IsOrderByDescLimit(r, Joined(db), CompletedOf(modelName), ViewDeployedAt, limit)
    ensures forall k :: 0 <= k < |r| ==> r[k] in Joined(db) && CompletedOf(modelName)(r[k])
  {
    var r := NewestFirst(Joined(db), CompletedOf(modelName), limit);
    NewestFirstIsOrderByDesc(Joined(db), CompletedOf(modelName), ViewDeployedAt, limit);
    OrderByDescDrawsMatches(r, Joined(db), CompletedOf(modelName), ViewDeployedAt, limit);
    r
  }

  /** A deployment's version, looked up again by model name and version string, is the version it was made of. */
  lemma ViewResolves(db: Db, v: DeploymentView)
    requires db.Valid() && v in Joined(db)
    ensures Resolve(db.models, db.versions, v.modelName, v.version) == Some(v.row.versionId)
  {
    var j := Joined(db);
    var i :| 0 <= i < |j| && j[i] == v;
    assert IsVersionOf(db.models, db.versions, v.row.versionId - 1, v.modelName, v.version);
  }

  /** `_version_exists`: `COUNT(*) > 0` over the same join `_set_traffic` resolves through. */
  function VersionExists(db: Db, modelName: string, version: string): (b: bool)
    reads db`models, db`versions
    requires CatalogOk(db.models, db.versions)
    ensures b <==> exists k :: IsVersionOf(db.models, db.versions, k, modelName, version)
  {
    var r := Resolve(db.models, db.versions, modelName, version);
    assert r.Some? ==> IsVersionOf(db.models, db.versions, r.value - 1, modelName, version);
    r.Some?
  }

  /** What `_get_error_rate` answers for every model and version. */
  const StubErrorRate: real := 0.01

  /**
   * What `rollback_to_version` leaves behind: the target reads 100, every
   * other version of the model reads 0 to the writers and to the reader,
   * and every version outside that set reads as before.
   */
  lemma RollbackToVersionEffect(rows: seq<TrafficRow>, models: seq<ModelRow>, versions: seq<VersionRow>,
                                modelName: string, version: string, vid: nat)
    requires CatalogOk(models, versions) && Resolve(models, versions, modelName, version) == Some(vid)
    ensures var others := OtherVersions(models, versions, modelName, version);
      var after := ZeroWhere(rows + [TrafficRow(vid, 100)], others);
      && CurrentTraffic(after, vid) == 100
      && (forall w :: IsOtherVersion(models, versions, modelName, version, w) ==>
            CurrentTraffic(after, w) == 0 && TrafficOf(after, w) == 0)
      && (forall w :: w != vid && !IsOtherVersion(models, versions, modelName, version, w) ==>
            CurrentTraffic(after, w) == CurrentTraffic(rows, w) && TrafficOf(after, w) == TrafficOf(rows + [TrafficRow(vid, 100)], w))
  {
    var others := OtherVersions(models, versions, modelName, version);
    var written := rows + [TrafficRow(vid, 100)];
    assert !others(vid);
    ZeroKeeps(written, others, vid);
    assert CurrentTraffic(written, vid) == 100;
    forall w | IsOtherVersion(models, versions, modelName, version, w)
      ensures CurrentTraffic(ZeroWhere(written, others), w) == 0 && TrafficOf(ZeroWhere(written, others), w) == 0
    {
      ZeroedReadsZero(written, others, w);
    }
    forall w | w != vid && !IsOtherVersion(models, versions, modelName, version, w)
      ensures CurrentTraffic(ZeroWhere(written, others), w) == CurrentTraffic(rows, w)
      ensures TrafficOf(ZeroWhere(written, others), w) == TrafficOf(written, w)
    {
      ZeroKeeps(written, others, w);
      CurrentUntouched(rows, [TrafficRow(vid, 100)], w);
    }
  }

  class RollbackManager {
    const db: Db
    const snapshots: SnapshotManager

    constructor (db: Db)
      ensures this.db == db && snapshots.db == db
    {
      this.db := db;
      snapshots := new SnapshotManager(db);
    }

    /**
     * `rollback_to_previous`: with fewer than two completed deployments of
     * the model nothing is written; otherwise the previous one's version
     * gets 100 and then the current one's gets 0. Deployments are left
     * alone, so a second call sees the same two.
     */
    method RollbackToPrevious(modelName: string) returns (r: Option<string>)
      requires db.Valid()
      modifies db`traffic
      ensures RecentDeployments(db, modelName, 2) == old(RecentDeployments(db, modelName, 2))
      ensures var recent := old(RecentDeployments(db, modelName, 2));
        |recent| < 2 ==> r.None? && db.traffic == old(db.traffic)
      ensures var recent := old(RecentDeployments(db, modelName, 2));
        |recent| >= 2 ==>
          && r == Some(recent[1].version)
          && db.traffic == old(db.traffic) + [TrafficRow(recent[1].row.versionId, 100), TrafficRow(recent[0].row.versionId, 0)]
          && CurrentTraffic(db.traffic, recent[0].row.versionId) == 0
          && (recent[1].row.versionId != recent[0].row.versionId ==> CurrentTraffic(db.traffic, recent[1].row.versionId) == 100)
    {
      var recent := RecentDeployments(db, modelName, 2);
      if |recent| < 2 {
        return None;
      }
      var current, previous := recent[0], recent[1];
      ViewResolves(db, previous);
      ViewResolves(db, current);
      SwapTraffic(modelName, previous, current);
      r := Some(previous.version);
    }

    /** The two writes of `rollback_to_previous`: the previous deployment's version to 100, then the current one's to 0. */
    method SwapTraffic(modelName: string, previous: DeploymentView, current: DeploymentView)
      requires CatalogOk(db.models, db.versions)
      requires Resolve(db.models, db.versions, modelName, previous.version) == Some(previous.row.versionId)
      requires Resolve(db.models, db.versions, modelName, current.version) == Some(current.row.versionId)
      modifies db`traffic
      ensures db.traffic == old(db.traffic) + [TrafficRow(previous.row.versionId, 100), TrafficRow(current.row.versionId, 0)]
      ensures CurrentTraffic(db.traffic, current.row.versionId) == 0
      ensures previous.row.versionId != current.row.versionId ==> CurrentTraffic(db.traffic, previous.row.versionId) == 100
    {
      TwoWrites(db.traffic, TrafficRow(previous.row.versionId, 100), TrafficRow(current.row.versionId, 0));
      SetTraffic(db, modelName, previous.version, 100);
      SetTraffic(db, modelName, current.version, 0);
    }

    /**
     * `rollback_to_version`: an unregistered version writes nothing;
     * otherwise the target gets 100 and every traffic row of the model's
     * other versions is zeroed, rows of other models untouched.
     */
    method RollbackToVersion(modelName: string, version: string) returns (ok: bool)
      requires CatalogOk(db.models, db.versions)
      modifies db`traffic
      ensures ok <==> Resolve(db.models, db.versions, modelName, version).Some?
      ensures !ok ==> db.traffic == old(db.traffic)
      ensures ok ==>
        db.traffic == ZeroWhere(old(db.traffic) + [TrafficRow(Resolve(db.models, db.versions, modelName, version).value, 100)],
                                OtherVersions(db.models, db.versions, modelName, version))
    {
      if !VersionExists(db, modelName, version) {
        return false;
      }
      SetTraffic(db, modelName, version, 100);
      ClearOtherTraffic(db, modelName, version);
      ok := true;
    }

    /** `rollback_from_snapshot`: exactly what `restore_snapshot` does and answers. */
    method RollbackFromSnapshot(snapshotId: int) returns (ok: bool)
      requires snapshots.db == db
      modifies db`traffic
      ensures ok <==> FindSnapshot(db.snapshots, snapshotId).Some?
      ensures !ok ==> db.traffic == old(db.traffic)
      ensures ok ==>
        var data := FindSnapshot(db.snapshots, snapshotId).value.data;
        && db.traffic == old(db.traffic) + [TrafficRow(data.versionId, data.traffic)]
        && CurrentTraffic(db.traffic, data.versionId) == data.traffic
    {
      ok := snapshots.RestoreSnapshot(snapshotId);
    }

    /**
     * `auto_rollback_on_error`: without a completed deployment nothing
     * happens; otherwise, when the (constant) error rate exceeds the
     * threshold, `rollback_to_previous` runs, and the answer is whether it
     * returned a non-empty version string.
     */
    method AutoRollbackOnError(modelName: string, threshold: real) returns (triggered: bool)
      requires db.Valid()
      modifies db`traffic
      ensures var recent := old(RecentDeployments(db, modelName, 2));
        var rolledBack := |recent| >= 2 && StubErrorRate > threshold;
        && (triggered <==> rolledBack && recent[1].version != "")
        && (rolledBack ==>
              db.traffic == old(db.traffic) + [TrafficRow(recent[1].row.versionId, 100), TrafficRow(recent[0].row.versionId, 0)])
        && (!rolledBack ==> db.traffic == old(db.traffic))
    {
      var current := RecentDeployments(db, modelName, 1);
      if |current| == 0 {
        return false;
      }
      var errorRate := StubErrorRate;
      if errorRate > threshold {
        var previous := RollbackToPrevious(modelName);
        if previous.Some? && previous.value != "" {
          return true;
        }
      }
      return false;
    }
  }
}
