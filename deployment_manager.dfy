/**
 * The deployment manager: validates a deploy request, records a pending
 * deployment, runs the chosen strategy and records its outcome; plus the
 * read-only deployment queries.
 */
module Deployments {
  import opened Wrappers
  import opened Query
  import opened Storage
  import opened Traffic
  import opened Strategies

  /** The exceptions `deploy` raises. */
  datatype DeployError = UnknownStrategy(strategy: string) | VersionNotFound(modelName: string, version: string)

  /** The manager's strategy table, keyed by the names callers pass. */
  const StrategyRegistry: map<string, Strategy> := map["direct" := Direct, "blue-green" := BlueGreen, "canary" := Canary]

  /** The deployments table joined with versions and models. */
  function Joined(db: Db): (r: seq<DeploymentView>)
    reads db`models, db`versions, db`deployments, db`snapshots, db`nextSnapshotId, db`metrics, db`alerts, db`clock
    requires db.Valid()
    ensures |r| == |db.deployments|
    ensures Ascending(r, ViewDeployedAt)
  {
    JoinDeploymentsAscending(db.models, db.versions, db.deployments, db.clock);
    JoinDeployments(db.models, db.versions, db.deployments)
  }

  /** `get_deployment`: the deployment with that id, joined with its version and model name, or None. */
  function GetDeployment(db: Db, id: int): (r: Option<DeploymentView>)
    reads db`models, db`versions, db`deployments, db`snapshots, db`nextSnapshotId, db`metrics, db`alerts, db`clock
    requires db.Valid()
    ensures r.Some? <==> exists i :: 0 <= i < |db.deployments| && db.deployments[i].id == id
    ensures r.Some? ==> r.value.row.id == id && r.value in Joined(db)
  {
    var joined := Joined(db);
    match FirstIndex(joined, (v: DeploymentView) => v.row.id == id)
    case None => None
    case Some(i) => Some(joined[i])
  }

  /** `if model_name:` — the filter applies only to a given, non-empty name. */
  function ModelFilter(modelName: Option<string>): DeploymentView -> bool {
    if modelName.Some? && modelName.value != "" then (v: DeploymentView) => v.modelName == modelName.value
    else (v: DeploymentView) => true
  }

  /** `list_deployments`: at most `limit` deployments, newest first, restricted to the model when one is given. */
  function ListDeployments(db: Db, modelName: Option<string>, limit: int): (r: seq<DeploymentView>)
    reads db`models, db`versions, db`deployments, db`snapshots, db`nextSnapshotId, db`metrics, db`alerts, db`clock
    requires db.Valid()
    ensures IsOrderByDescLimit(r, Joined(db), ModelFilter(modelName), ViewDeployedAt, limit)
  {
    NewestFirstIsOrderByDesc(Joined(db), ModelFilter(modelName), ViewDeployedAt, limit);
    NewestFirst(Joined(db), ModelFilter(modelName), limit)
  }

  /**
   * `get_active_deployment`: the completed deployment of the model with the
   * latest `deployed_at`, or None. The source's row (`d.*` and `v.version`)
   * has no model name; the view's `modelName` is the name that was queried.
   */
  function GetActiveDeployment(db: Db, modelName: string): (r: Option<DeploymentView>)
    reads db`models, db`versions, db`deployments, db`snapshots, db`nextSnapshotId, db`metrics, db`alerts, db`clock
    requires db.Valid()
    ensures var j := Joined(db);
      r.None? <==> forall i :: 0 <= i < |j| ==> !CompletedOf(modelName)(j[i])
    ensures var j := Joined(db);
      r.Some? ==> && r.value in j && CompletedOf(modelName)(r.value)
                  && forall i :: 0 <= i < |j| && CompletedOf(modelName)(j[i]) ==> ViewDeployedAt(j[i]) <= ViewDeployedAt(r.value)
  {
    var j := Joined(db);
    var recent := NewestFirst(j, CompletedOf(modelName), 1);
    NewestFirstIsOrderByDesc(j, CompletedOf(modelName), ViewDeployedAt, 1);
    MostRecent(j, CompletedOf(modelName), ViewDeployedAt, recent);
    if |recent| == 0 then None else Some(recent[0])
  }

  /** What `LIMIT 1` of an `ORDER BY ... DESC` query means: absent iff nothing matches, else a newest match. */
  lemma MostRecent<T>(s: seq<T>, keep: T -> bool, stamp: T -> nat, r: seq<T>)
    requires IsOrderByDescLimit(r, s, keep, stamp, 1)
    ensures |r| == 0 <==> forall i :: 0 <= i < |s| ==> !keep(s[i])
    ensures |r| != 0 ==> |r| == 1 && r[0] in s && keep(r[0])
    ensures |r| != 0 ==> forall i :: 0 <= i < |s| && keep(s[i]) ==> stamp(s[i]) <= stamp(r[0])
  {
    var f := Filter(s, keep);
    FilterMembers(s, keep);
    if exists i :: 0 <= i < |s| && keep(s[i]) {
      var i :| 0 <= i < |s| && keep(s[i]);
      assert s[i] in f;
    }
    if |r| != 0 {
      assert r[0] in multiset(f);
      assert r[0] in f;
    }
  }

  /** The status `deploy` records for a strategy's verdict. */
  function Outcome(ok: bool): DeploymentStatus {
    if ok then Completed else Failed
  }

  lemma AppendThenFinish(s: seq<DeploymentRow>, x: DeploymentRow, status: DeploymentStatus, finishedAt: nat)
    ensures var t := s + [x];
      t[|s| := t[|s|].(status := status, completedAt := Some(finishedAt))] == s + [x.(status := status, completedAt := Some(finishedAt))]
  {
  }

  class DeploymentManager {
    const db: Db
    const strategies: map<string, Strategy>

    constructor (db: Db)
      ensures this.db == db && strategies == StrategyRegistry
    {
      this.db := db;
      strategies := StrategyRegistry;
    }

    /** `_create_deployment`: append a pending deployment of a resolved version and return its id. */
    method CreateDeployment(versionId: nat, strategy: string) returns (id: nat)
      requires db.Valid() && 1 <= versionId <= |db.versions|
      modifies db`deployments
      ensures db.Valid()
      ensures id == |old(db.deployments)| + 1
      ensures db.deployments == old(db.deployments) + [DeploymentRow(id, versionId, strategy, Pending, db.clock, None)]
    {
      id := |db.deployments| + 1;
      StampedAppend(db.deployments, DeploymentRow(id, versionId, strategy, Pending, db.clock, None), DeployedAt, db.clock);
      db.deployments := db.deployments + [DeploymentRow(id, versionId, strategy, Pending, db.clock, None)];
    }

    /** `_update_deployment_status`: set the status and stamp `completed_at`; no row has a missing id. */
    method UpdateDeploymentStatus(id: int, status: DeploymentStatus)
      requires db.Valid()
      modifies db`deployments
      ensures db.Valid()
      ensures 1 <= id <= |old(db.deployments)| ==>
        db.deployments == old(db.deployments)[id - 1 := old(db.deployments)[id - 1].(status := status, completedAt := Some(db.clock))]
      ensures !(1 <= id <= |old(db.deployments)|) ==> db.deployments == old(db.deployments)
    {
      if 1 <= id <= |db.deployments| {
        var updated := db.deployments[id - 1 := db.deployments[id - 1].(status := status, completedAt := Some(db.clock))];
        StampedSameStamps(db.deployments, updated, DeployedAt, db.clock);
        db.deployments := updated;
      }
    }

    /**
     * `deploy` once the strategy and version have been found: record a
     * pending deployment, run the strategy (whose checks answer `healthy`),
     * and record `completed` or `failed`. The strategy's simulated waits
     * end at `finishedAt`, the time `completed_at` reads.
     */
    method Run(modelName: string, version: string, strategy: string, versionId: nat, healthy: nat -> bool,
               finishedAt: nat) returns (id: nat, ok: bool)
      requires db.Valid() && strategy in strategies && db.clock <= finishedAt
      requires Resolve(db.models, db.versions, modelName, version) == Some(versionId)
      modifies db`deployments, db`traffic, db`clock
      ensures db.Valid()
      ensures id == |old(db.deployments)| + 1
      ensures ok == Plan(strategies[strategy], healthy).1
      ensures db.deployments == old(db.deployments) +
        [DeploymentRow(id, versionId, strategy, Outcome(ok), old(db.clock), Some(finishedAt))]
      ensures db.traffic == old(db.traffic) + Written(Some(versionId), Plan(strategies[strategy], healthy).0)
      ensures db.clock == finishedAt
    {
      ghost var before := db.deployments;
      id, ok := Start(modelName, version, strategy, versionId, healthy);
      Finish(id, Outcome(ok), finishedAt);
      AppendThenFinish(before, DeploymentRow(id, versionId, strategy, Pending, old(db.clock), None), Outcome(ok), finishedAt);
    }

    /** The first half of `deploy`: `_create_deployment`, then the strategy. */
    method Start(modelName: string, version: string, strategy: string, versionId: nat, healthy: nat -> bool)
      returns (id: nat, ok: bool)
      requires db.Valid() && strategy in strategies
      requires Resolve(db.models, db.versions, modelName, version) == Some(versionId)
      modifies db`deployments, db`traffic
      ensures db.Valid()
      ensures id == |old(db.deployments)| + 1
      ensures ok == Plan(strategies[strategy], healthy).1
      ensures db.deployments == old(db.deployments) + [DeploymentRow(id, versionId, strategy, Pending, db.clock, None)]
      ensures db.traffic == old(db.traffic) + Written(Some(versionId), Plan(strategies[strategy], healthy).0)
    {
      id := CreateDeployment(versionId, strategy);
      label created:
      ok := Execute(strategies[strategy], db, modelName, version, id, healthy);
      TrafficWriteKeepsValid@created(db);
    }

    /** The strategy's waits end at `finishedAt`; then `_update_deployment_status` records the outcome. */
    method Finish(id: int, status: DeploymentStatus, finishedAt: nat)
      requires db.Valid() && db.clock <= finishedAt
      modifies db`deployments, db`clock
      ensures db.Valid() && db.clock == finishedAt
      ensures 1 <= id <= |old(db.deployments)| ==>
        db.deployments == old(db.deployments)[id - 1 := old(db.deployments)[id - 1].(status := status, completedAt := Some(finishedAt))]
      ensures !(1 <= id <= |old(db.deployments)|) ==> db.deployments == old(db.deployments)
    {
      db.AdvanceClock(finishedAt);
      UpdateDeploymentStatus(id, status);
    }

    /**
     * `deploy`: an unknown strategy name is rejected before the version is
     * looked up; an unregistered version is rejected before anything is
     * written.
     */
    method Deploy(modelName: string, version: string, strategy: string, healthy: nat -> bool, finishedAt: nat)
      returns (r: Result<nat, DeployError>)
      requires db.Valid() && strategies == StrategyRegistry && db.clock <= finishedAt
      modifies db`deployments, db`traffic, db`clock
      ensures db.Valid()
      ensures strategy !in StrategyRegistry ==> r == Err(UnknownStrategy(strategy))
      ensures strategy in StrategyRegistry && Resolve(db.models, db.versions, modelName, version).None? ==>
        r == Err(VersionNotFound(modelName, version))
      ensures r.Err? ==> db.deployments == old(db.deployments) && db.traffic == old(db.traffic) && db.clock == old(db.clock)
      ensures r.Ok? <==> strategy in StrategyRegistry && Resolve(db.models, db.versions, modelName, version).Some?
      ensures r.Ok? ==>
        var vid := Resolve(db.models, db.versions, modelName, version).value;
        var plan := Plan(StrategyRegistry[strategy], healthy);
        && r.value == |old(db.deployments)| + 1
        && db.deployments == old(db.deployments) +
             [DeploymentRow(r.value, vid, strategy, Outcome(plan.1), old(db.clock), Some(finishedAt))]
        && db.traffic == old(db.traffic) + Written(Some(vid), plan.0)
        && db.clock == finishedAt
    {
      if strategy !in strategies {
        return Err(UnknownStrategy(strategy));
      }
      var vid := Resolve(db.models, db.versions, modelName, version);
      if vid.None? {
        return Err(VersionNotFound(modelName, version));
      }
      var id, _ := Run(modelName, version, strategy, vid.value, healthy, finishedAt);
      r := Ok(id);
    }
  }
}
