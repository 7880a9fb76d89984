/**
 * The snapshot manager: captures a deployment together with the traffic
 * value the database reports for its version, lists and deletes captures,
 * and restores one by appending its traffic row again. The stored JSON is
 * held as its decoded record, so the `json.dumps`/`json.loads` round trip
 * is the identity.
 */
module Snapshots {
  import opened Wrappers
  import opened Query
  import opened Storage
  import opened Traffic
  import opened Deployments

  /** `_get_snapshot`: the row with that id, or None. */
  function FindSnapshot(snapshots: seq<SnapshotRow>, id: int): (r: Option<SnapshotRow>)
    ensures r.None? <==> forall i :: 0 <= i < |snapshots| ==> snapshots[i].id != id
    ensures r.Some? ==> r.value in snapshots && r.value.id == id
  {
    match FirstIndex(snapshots, (s: SnapshotRow) => s.id == id)
    case None => None
    case Some(i) => Some(snapshots[i])
  }

  /** Ids are unique, so the row `_get_snapshot` finds is the one row carrying that id. */
  lemma FindSnapshotIsTheRow(snapshots: seq<SnapshotRow>, nextId: nat, row: SnapshotRow)
    requires SnapshotsOk(snapshots, nextId) && row in snapshots
    ensures FindSnapshot(snapshots, row.id) == Some(row)
  {
    var r := FindSnapshot(snapshots, row.id);
    var k :| 0 <= k < |snapshots| && snapshots[k] == row;
    var j :| 0 <= j < |snapshots| && snapshots[j] == r.value;
    assert j == k;
  }

  /** A row stored under the counter's next id is what `_get_snapshot` then answers for that id. */
  lemma FindStored(snapshots: seq<SnapshotRow>, nextId: nat, row: SnapshotRow)
    requires SnapshotsOk(snapshots, nextId) && row.id == nextId
    ensures FindSnapshot(snapshots + [row], nextId) == Some(row)
  {
    StoreKeepsSnapshotsOk(snapshots, nextId, row);
    FindSnapshotIsTheRow(snapshots + [row], nextId + 1, row);
  }

  /** Storing a row leaves what `_get_snapshot` answers for every other id as it was. */
  lemma StoreKeepsOthers(snapshots: seq<SnapshotRow>, nextId: nat, row: SnapshotRow, id: int)
    requires SnapshotsOk(snapshots, nextId) && row.id == nextId && id != nextId
    ensures FindSnapshot(snapshots + [row], id) == FindSnapshot(snapshots, id)
  {
    StoreKeepsSnapshotsOk(snapshots, nextId, row);
    var before := FindSnapshot(snapshots, id);
    if before.Some? {
      FindSnapshotIsTheRow(snapshots + [row], nextId + 1, before.value);
    } else {
      forall i | 0 <= i < |snapshots + [row]| ensures (snapshots + [row])[i].id != id {
        if i < |snapshots| {
          assert (snapshots + [row])[i] == snapshots[i];
        }
      }
    }
  }

  /** `INSERT INTO snapshots` under the AUTOINCREMENT counter keeps ids fresh and increasing. */
  lemma StoreKeepsSnapshotsOk(snapshots: seq<SnapshotRow>, nextId: nat, row: SnapshotRow)
    requires SnapshotsOk(snapshots, nextId) && row.id == nextId
    ensures SnapshotsOk(snapshots + [row], nextId + 1)
  {
    var s := snapshots + [row];
    forall i | 0 <= i < |s| ensures 1 <= s[i].id < nextId + 1 {
      if i < |snapshots| {
        assert s[i] == snapshots[i];
      }
    }
    forall i, j | 0 <= i < j < |s| ensures s[i].id < s[j].id {
      if j == |snapshots| {
        assert s[i] == snapshots[i];
      } else {
        assert s[i] == snapshots[i] && s[j] == snapshots[j];
      }
    }
  }

  /** `DELETE FROM snapshots WHERE ...` keeps ids fresh and increasing. */
  lemma {:induction false} DeleteKeepsSnapshotsOk(snapshots: seq<SnapshotRow>, nextId: nat, keep: SnapshotRow -> bool)
    requires SnapshotsOk(snapshots, nextId)
    ensures SnapshotsOk(Filter(snapshots, keep), nextId)
    decreases |snapshots|
  {
    if snapshots != [] {
      var init, last := snapshots[..|snapshots| - 1], snapshots[|snapshots| - 1];
      assert SnapshotsOk(init, last.id) by {
        forall i | 0 <= i < |init| ensures 1 <= init[i].id < last.id {
          assert init[i] == snapshots[i];
        }
      }
      DeleteKeepsSnapshotsOk(init, last.id, keep);
      if keep(last) {
        StoreKeepsSnapshotsOk(Filter(init, keep), last.id, last);
      } else {
        assert Filter(snapshots, keep) == Filter(init, keep);
      }
    }
  }

  /** The predicate of `DELETE FROM snapshots WHERE id = ?`, negated: the rows that stay. */
  function Survives(id: int): SnapshotRow -> bool {
    (s: SnapshotRow) => s.id != id
  }

  /** After deleting an id, `_get_snapshot` no longer finds it, and finds every other id as before. */
  lemma DeleteForgetsOnlyThatId(snapshots: seq<SnapshotRow>, nextId: nat, id: int, other: int)
    requires SnapshotsOk(snapshots, nextId)
    ensures FindSnapshot(Filter(snapshots, Survives(id)), id).None?
    ensures other != id ==> FindSnapshot(Filter(snapshots, Survives(id)), other) == FindSnapshot(snapshots, other)
  {
    var f := Filter(snapshots, Survives(id));
    FilterMembers(snapshots, Survives(id));
    DeleteKeepsSnapshotsOk(snapshots, nextId, Survives(id));
    if other != id {
      var before := FindSnapshot(snapshots, other);
      if before.Some? {
        var k :| 0 <= k < |snapshots| && snapshots[k] == before.value;
        assert before.value in f;
        FindSnapshotIsTheRow(f, nextId, before.value);
      } else {
        forall i | 0 <= i < |f| ensures f[i].id != other {
          assert f[i] in multiset(snapshots);
        }
      }
    }
  }

  /** `if deployment_id:` — the filter applies only to a given, non-zero id. */
  function SnapshotFilter(deploymentId: Option<int>): SnapshotRow -> bool {
    if deploymentId.Some? && deploymentId.value != 0 then (s: SnapshotRow) => s.deploymentId == deploymentId.value
    else (s: SnapshotRow) => true
  }

  /** `list_snapshots`: at most `limit` snapshots, newest first, of the deployment when one is given. */
  function ListSnapshots(db: Db, deploymentId: Option<int>, limit: int): (r: seq<SnapshotRow>)
    reads db`models, db`versions, db`deployments, db`snapshots, db`nextSnapshotId, db`metrics, db`alerts, db`clock
    requires db.Valid()
    ensures IsOrderByDescLimit(r, db.snapshots, SnapshotFilter(deploymentId), SnapshotCreatedAt, limit)
  {
    StampedAscending(db.snapshots, SnapshotCreatedAt, db.clock);
    NewestFirstIsOrderByDesc(db.snapshots, SnapshotFilter(deploymentId), SnapshotCreatedAt, limit);
    NewestFirst(db.snapshots, SnapshotFilter(deploymentId), limit)
  }

  /** The `snapshot_data` record `create_snapshot` builds from a deployment and its traffic value. */
  function Capture(view: DeploymentView, traffic: int): (r: SnapshotData)
    ensures r.deploymentId == view.row.id && r.versionId == view.row.versionId && r.strategy == view.row.strategy
    ensures r.version == view.version && r.modelName == view.modelName && r.traffic == traffic
  {
    SnapshotData(view.row.id, view.row.versionId, view.version, view.modelName, view.row.strategy, traffic)
  }

  class SnapshotManager {
    const db: Db

    constructor (db: Db)
      ensures this.db == db
    {
      this.db := db;
    }

    /**
     * `create_snapshot`: an unknown deployment stores nothing; otherwise one
     * row is stored, whatever the deployment's status, holding what
     * `_get_traffic_config` reads for its version (0 when no row exists).
     */
    method CreateSnapshot(deploymentId: int) returns (r: Option<nat>)
      requires db.Valid()
      modifies db`snapshots, db`nextSnapshotId
      ensures db.Valid()
      ensures old(GetDeployment(db, deploymentId)).None? ==>
        r.None? && db.snapshots == old(db.snapshots) && db.nextSnapshotId == old(db.nextSnapshotId)
      ensures old(GetDeployment(db, deploymentId)).Some? ==>
        var view := old(GetDeployment(db, deploymentId)).value;
        var data := Capture(view, TrafficOf(db.traffic, view.row.versionId));
        && r == Some(old(db.nextSnapshotId))
        && db.snapshots == old(db.snapshots) + [SnapshotRow(r.value, view.row.id, data, db.clock)]
        && db.nextSnapshotId == old(db.nextSnapshotId) + 1
    {
      var found := GetDeployment(db, deploymentId);
      if found.None? {
        return None;
      }
      var view := found.value;
      var traffic := TrafficOf(db.traffic, view.row.versionId);
      var id := StoreSnapshot(view.row.id, Capture(view, traffic));
      r := Some(id);
    }

    /** `_store_snapshot`: insert under the next AUTOINCREMENT id, stamped with the clock. */
    method StoreSnapshot(deploymentId: nat, data: SnapshotData) returns (id: nat)
      requires db.Valid()
      modifies db`snapshots, db`nextSnapshotId
      ensures db.Valid()
      ensures id == old(db.nextSnapshotId) && db.nextSnapshotId == id + 1
      ensures db.snapshots == old(db.snapshots) + [SnapshotRow(id, deploymentId, data, db.clock)]
    {
      id := db.nextSnapshotId;
      var row := SnapshotRow(id, deploymentId, data, db.clock);
      StoreKeepsSnapshotsOk(db.snapshots, id, row);
      StampedAppend(db.snapshots, row, SnapshotCreatedAt, db.clock);
      db.snapshots, db.nextSnapshotId := db.snapshots + [row], id + 1;
      SnapshotWriteKeepsValid(db);
    }

    /**
     * `restore_snapshot`: an unknown id writes nothing; otherwise the
     * captured `(version_id, traffic)` row is appended, which makes the
     * captured value that version's current traffic again.
     */
    method RestoreSnapshot(snapshotId: int) returns (ok: bool)
      modifies db`traffic
      ensures ok <==> FindSnapshot(db.snapshots, snapshotId).Some?
      ensures !ok ==> db.traffic == old(db.traffic)
      ensures ok ==>
        var data := FindSnapshot(db.snapshots, snapshotId).value.data;
        && db.traffic == old(db.traffic) + [TrafficRow(data.versionId, data.traffic)]
        && CurrentTraffic(db.traffic, data.versionId) == data.traffic
    {
      var snapshot := FindSnapshot(db.snapshots, snapshotId);
      if snapshot.None? {
        return false;
      }
      var data := snapshot.value.data;
      InsertTraffic(db, data.versionId, data.traffic);
      ok := true;
    }

    /** `delete_snapshot`: remove the row with that id, if any; ids are never reused. */
    method DeleteSnapshot(snapshotId: int)
      requires db.Valid()
      modifies db`snapshots
      ensures db.Valid()
      ensures db.snapshots == Filter(old(db.snapshots), Survives(snapshotId))
      ensures FindSnapshot(db.snapshots, snapshotId).None?
    {
      DeleteKeepsSnapshotsOk(db.snapshots, db.nextSnapshotId, Survives(snapshotId));
      StampedFilter(db.snapshots, Survives(snapshotId), SnapshotCreatedAt, db.clock);
      DeleteForgetsOnlyThatId(db.snapshots, db.nextSnapshotId, snapshotId, snapshotId);
      db.snapshots := Filter(db.snapshots, Survives(snapshotId));
      SnapshotWriteKeepsValid(db);
    }
  }
}
