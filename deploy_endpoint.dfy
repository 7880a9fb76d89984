/**
 * The deploy endpoint's composition: deploy a version, then always take a
 * snapshot of the deployment just recorded, whatever its outcome.
 */
module Endpoint {
  import opened Wrappers
  import opened Storage
  import opened Traffic
  import opened Strategies
  import opened Deployments
  import opened Snapshots

  /** The ids the endpoint reports back. */
  datatype DeployResponse = DeployResponse(deploymentId: nat, snapshotId: Option<nat>)

  /** The deployment `deploy` just recorded is the one `get_deployment` finds under the returned id. */
  lemma NewDeploymentFound(db: Db, id: nat, modelName: string, version: string)
    requires db.Valid() && |db.deployments| == id && id >= 1
    requires var row := db.deployments[id - 1];
      row.versionId >= 1 && IsVersionOf(db.models, db.versions, row.versionId - 1, modelName, version)
    ensures GetDeployment(db, id).Some?
    ensures var view := GetDeployment(db, id).value;
      view.row == db.deployments[id - 1] && view.version == version && view.modelName == modelName
  {
    assert db.deployments[id - 1].id == id;
    var view := GetDeployment(db, id).value;
    var j := Joined(db);
    var i :| 0 <= i < |j| && j[i] == view;
    assert db.deployments[i].id == i + 1;
  }

  /** The snapshot row taken of deployment `id`, a deployment of that version with that strategy. */
  ghost predicate SnapshotOf(row: SnapshotRow, id: nat, modelName: string, version: string, strategy: string) {
    && row.deploymentId == id && row.data.deploymentId == id
    && row.data.version == version && row.data.modelName == modelName && row.data.strategy == strategy
  }

  /** `snapshot_manager.create_snapshot(deployment_id)` right after `deploy` recorded that deployment. */
  method SnapshotNewDeployment(snapshots: SnapshotManager, id: nat, modelName: string, version: string, strategy: string)
    returns (snapshotId: Option<nat>)
    requires snapshots.db.Valid() && |snapshots.db.deployments| == id && id >= 1
    requires var row := snapshots.db.deployments[id - 1];
      row.versionId >= 1 && row.strategy == strategy
      && IsVersionOf(snapshots.db.models, snapshots.db.versions, row.versionId - 1, modelName, version)
    modifies snapshots.db`snapshots, snapshots.db`nextSnapshotId
    ensures snapshots.db.Valid()
    ensures snapshotId == Some(old(snapshots.db.nextSnapshotId))
    ensures |snapshots.db.snapshots| == |old(snapshots.db.snapshots)| + 1
    ensures SnapshotOf(snapshots.db.snapshots[|old(snapshots.db.snapshots)|], id, modelName, version, strategy)
    ensures var row := snapshots.db.deployments[id - 1];
      var data := Capture(DeploymentView(row, version, modelName), TrafficOf(snapshots.db.traffic, row.versionId));
      && snapshots.db.snapshots == old(snapshots.db.snapshots) + [SnapshotRow(snapshotId.value, id, data, snapshots.db.clock)]
      && snapshots.db.nextSnapshotId == old(snapshots.db.nextSnapshotId) + 1
  {
    NewDeploymentFound(snapshots.db, id, modelName, version);
    snapshotId := snapshots.CreateSnapshot(id);
  }

  /**
   * `POST /api/models/<model_name>/deploy`: a rejected deploy stores
   * nothing; an accepted one is followed by a snapshot of that very
   * deployment, so the response always carries a snapshot id.
   */
  method DeployModel(deployments: DeploymentManager, snapshots: SnapshotManager,
                     modelName: string, version: string, strategy: string, healthy: nat -> bool, finishedAt: nat)
    returns (r: Result<DeployResponse, DeployError>)
    requires deployments.db == snapshots.db
    requires deployments.db.Valid() && deployments.strategies == StrategyRegistry && deployments.db.clock <= finishedAt
    modifies deployments.db`deployments, deployments.db`traffic, deployments.db`clock
    modifies deployments.db`snapshots, deployments.db`nextSnapshotId
    ensures deployments.db.Valid()
    ensures r.Ok? <==> strategy in StrategyRegistry
                       && Resolve(deployments.db.models, deployments.db.versions, modelName, version).Some?
    ensures strategy !in StrategyRegistry ==> r == Err(UnknownStrategy(strategy))
    ensures strategy in StrategyRegistry && Resolve(deployments.db.models, deployments.db.versions, modelName, version).None? ==>
      r == Err(VersionNotFound(modelName, version))
    ensures r.Err? ==> deployments.db.snapshots == old(deployments.db.snapshots)
                       && deployments.db.deployments == old(deployments.db.deployments)
                       && deployments.db.traffic == old(deployments.db.traffic)
                       && deployments.db.clock == old(deployments.db.clock)
                       && deployments.db.nextSnapshotId == old(deployments.db.nextSnapshotId)
    ensures r.Ok? ==>
      var db := deployments.db;
      var vid := Resolve(db.models, db.versions, modelName, version).value;
      var plan := Plan(StrategyRegistry[strategy], healthy);
      var row := DeploymentRow(r.value.deploymentId, vid, strategy, Outcome(plan.1), old(db.clock), Some(finishedAt));
      && db.deployments == old(db.deployments) + [row]
      && db.traffic == old(db.traffic) + Written(Some(vid), plan.0)
      && db.clock == finishedAt
      && db.snapshots == old(db.snapshots) +
           [SnapshotRow(old(db.nextSnapshotId), row.id, Capture(DeploymentView(row, version, modelName), TrafficOf(db.traffic, vid)),
                        finishedAt)]
      && db.nextSnapshotId == old(db.nextSnapshotId) + 1
    ensures r.Ok? ==>
      && r.value.deploymentId == |old(deployments.db.deployments)| + 1
      && r.value.snapshotId == Some(old(deployments.db.nextSnapshotId))
      && |deployments.db.snapshots| == |old(deployments.db.snapshots)| + 1
      && SnapshotOf(deployments.db.snapshots[|old(deployments.db.snapshots)|], r.value.deploymentId, modelName, version, strategy)
  {
    var deployed := deployments.Deploy(modelName, version, strategy, healthy, finishedAt);
    if deployed.Err? {
      return Err(deployed.error);
    }
    var id := deployed.value;
    var snapshotId := SnapshotNewDeployment(snapshots, id, modelName, version, strategy);
    r := Ok(DeployResponse(id, snapshotId));
  }
}
