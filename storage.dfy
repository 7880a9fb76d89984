/**
 * The registry's SQLite tables, held in memory. Each table is a sequence of
 * rows in insertion order; `clock` stands for what `CURRENT_TIMESTAMP`
 * reads now (whole seconds, so rows inserted within the same second share a
 * stamp). Deployments, versions, models and alerts are never deleted, so
 * SQLite's AUTOINCREMENT hands out 1, 2, 3, ... and a row's id is its
 * position plus one; the snapshots table, from which rows are deleted,
 * keeps an explicit counter because AUTOINCREMENT never reuses an id.
 */
module Storage {
  import opened Wrappers
  import opened Query

  datatype ModelRow = ModelRow(id: nat, name: string, description: string, createdAt: nat)

  /** A JSON value inside a version's metadata object; only lists of strings (`tags`) are interpreted. */
  datatype MetaValue = Str(s: string) | List(items: seq<MetaValue>) | Other(json: string)

  /** The decoded `versions.metadata` JSON object. */
  type Metadata = map<string, MetaValue>

  datatype VersionRow = VersionRow(id: nat, modelId: nat, version: string, status: string,
                                   metadata: Option<Metadata>, createdAt: nat)

  datatype DeploymentStatus = Pending | Completed | Failed

  datatype DeploymentRow = DeploymentRow(id: nat, versionId: nat, strategy: string, status: DeploymentStatus,
                                         deployedAt: nat, completedAt: Option<nat>)

  /** The decoded `snapshots.snapshot_data` JSON object. */
  datatype SnapshotData = SnapshotData(deploymentId: nat, versionId: nat, version: string, modelName: string,
                                       strategy: string, traffic: int)

  datatype SnapshotRow = SnapshotRow(id: nat, deploymentId: nat, data: SnapshotData, createdAt: nat)

  datatype MetricRow = MetricRow(versionId: nat, name: string, value: real, timestamp: nat)

  datatype AlertType = LatencyHigh | ErrorRateHigh | PerformanceDegradation

  datatype Severity = Info | Warning | Critical {
    /** The text stored in `alerts.severity`. */
    function Name(): string {
      match this
      case Info => "info"
      case Warning => "warning"
      case Critical => "critical"
    }
  }

  datatype AlertRow = AlertRow(id: nat, versionId: nat, alertType: AlertType, severity: Severity, timestamp: nat)

  /** A row of the `traffic` table; its own id column is never read and is left out. */
  datatype TrafficRow = TrafficRow(versionId: nat, percentage: int)

  function ModelCreatedAt(m: ModelRow): nat { m.createdAt }
  function VersionCreatedAt(v: VersionRow): nat { v.createdAt }
  function DeployedAt(d: DeploymentRow): nat { d.deployedAt }
  function SnapshotCreatedAt(s: SnapshotRow): nat { s.createdAt }
  function MetricTimestamp(m: MetricRow): nat { m.timestamp }
  function AlertTimestamp(a: AlertRow): nat { a.timestamp }

  /**
   * The catalog's schema constraints: AUTOINCREMENT ids, `models.name UNIQUE`,
   * `UNIQUE(model_id, version)`, and every version belonging to a registered model.
   */
  ghost predicate CatalogOk(models: seq<ModelRow>, versions: seq<VersionRow>) {
    && (forall i :: 0 <= i < |models| ==> models[i].id == i + 1)
    && (forall i, j :: 0 <= i < j < |models| ==> models[i].name != models[j].name)
    && (forall k :: 0 <= k < |versions| ==> versions[k].id == k + 1 && 1 <= versions[k].modelId <= |models|)
    && (forall k, l :: 0 <= k < l < |versions| ==>
          versions[k].modelId != versions[l].modelId || versions[k].version != versions[l].version)
  }

  /** The name of the model a version row belongs to (`JOIN models m ON v.model_id = m.id`). */
  function OwnerName(models: seq<ModelRow>, v: VersionRow): string
    requires 1 <= v.modelId <= |models|
  {
    models[v.modelId - 1].name
  }

  /** Row `k` of the versions table is version `version` of the model called `name`. */
  ghost predicate IsVersionOf(models: seq<ModelRow>, versions: seq<VersionRow>, k: int, name: string, version: string) {
    && 0 <= k < |versions|
    && 1 <= versions[k].modelId <= |models|
    && OwnerName(models, versions[k]) == name
    && versions[k].version == version
  }

  /**
   * `SELECT v.id FROM versions v JOIN models m ON v.model_id = m.id
   *  WHERE m.name = ? AND v.version = ?` followed by `fetchone()`.
   */
  function Resolve(models: seq<ModelRow>, versions: seq<VersionRow>, name: string, version: string): (r: Option<nat>)
    requires CatalogOk(models, versions)
    ensures r.Some? ==> 1 <= r.value <= |versions| && IsVersionOf(models, versions, r.value - 1, name, version)
    ensures forall k :: IsVersionOf(models, versions, k, name, version) <==> r == Some(k + 1)
  {
    match FirstIndex(models, (m: ModelRow) => m.name == name)
    case None => None
    case Some(mi) =>
      match FirstIndex(versions, (v: VersionRow) => v.modelId == mi + 1 && v.version == version)
      case None => None
      case Some(k) => Some(k + 1)
  }

  /** The catalog only grows: models are appended, and version rows keep their model and version string. */
  ghost predicate CatalogGrows(models: seq<ModelRow>, versions: seq<VersionRow>,
                               models': seq<ModelRow>, versions': seq<VersionRow>) {
    && models <= models'
    && |versions| <= |versions'|
    && forall k :: 0 <= k < |versions| ==>
         versions'[k].modelId == versions[k].modelId && versions'[k].version == versions[k].version
  }

  /** No code path deletes a model or a version, so a version that resolved once resolves to the same id ever after. */
  lemma ResolveStable(models: seq<ModelRow>, versions: seq<VersionRow>,
                      models': seq<ModelRow>, versions': seq<VersionRow>, name: string, version: string)
    requires CatalogOk(models, versions) && CatalogOk(models', versions')
    requires CatalogGrows(models, versions, models', versions')
    requires Resolve(models, versions, name, version).Some?
    ensures Resolve(models', versions', name, version) == Resolve(models, versions, name, version)
  {
    var vid := Resolve(models, versions, name, version).value;
    assert IsVersionOf(models, versions, vid - 1, name, version);
    assert models'[versions[vid - 1].modelId - 1] == models[versions[vid - 1].modelId - 1];
    assert IsVersionOf(models', versions', vid - 1, name, version);
  }

  /** Two versions tables that differ at most in `status` and `metadata`, the columns an `UPDATE versions` sets. */
  ghost predicate SameKeys(versions: seq<VersionRow>, versions': seq<VersionRow>) {
    && |versions'| == |versions|
    && forall k :: 0 <= k < |versions| ==>
         && versions'[k].id == versions[k].id && versions'[k].modelId == versions[k].modelId
         && versions'[k].version == versions[k].version && versions'[k].createdAt == versions[k].createdAt
  }

  /** Rewriting `status` or `metadata` keeps the catalog's constraints and every lookup's answer. */
  lemma ResolveSameKeys(models: seq<ModelRow>, versions: seq<VersionRow>, versions': seq<VersionRow>,
                        name: string, version: string)
    requires CatalogOk(models, versions) && SameKeys(versions, versions')
    ensures CatalogOk(models, versions')
    ensures Resolve(models, versions', name, version) == Resolve(models, versions, name, version)
  {
    assert forall k :: IsVersionOf(models, versions, k, name, version) <==> IsVersionOf(models, versions', k, name, version);
  }

  /** Deployment rows: AUTOINCREMENT ids, and each refers to a registered version. */
  ghost predicate DeploymentsOk(deployments: seq<DeploymentRow>, versionCount: nat) {
    forall i :: 0 <= i < |deployments| ==>
      deployments[i].id == i + 1 && 1 <= deployments[i].versionId <= versionCount
  }

  /** Snapshot ids increase strictly along the table and stay below the AUTOINCREMENT counter. */
  ghost predicate SnapshotsOk(snapshots: seq<SnapshotRow>, nextId: nat) {
    && 1 <= nextId
    && (forall i :: 0 <= i < |snapshots| ==> 1 <= snapshots[i].id < nextId)
    && (forall i, j :: 0 <= i < j < |snapshots| ==> snapshots[i].id < snapshots[j].id)
  }

  /** Alert rows: AUTOINCREMENT ids, and each refers to a registered version. */
  ghost predicate AlertsOk(alerts: seq<AlertRow>, versionCount: nat) {
    forall i :: 0 <= i < |alerts| ==> alerts[i].id == i + 1 && 1 <= alerts[i].versionId <= versionCount
  }

  /** A deployment row joined with its version and model: `d.*, v.version, m.name AS model_name`. */
  datatype DeploymentView = DeploymentView(row: DeploymentRow, version: string, modelName: string)

  function ViewDeployedAt(v: DeploymentView): nat { v.row.deployedAt }

  /**
   * `FROM deployments d JOIN versions v ON d.version_id = v.id JOIN models m ON v.model_id = m.id`.
   * Every deployment refers to a registered version, so the inner join drops no row.
   */
  function JoinDeployments(models: seq<ModelRow>, versions: seq<VersionRow>, deployments: seq<DeploymentRow>)
    : (r: seq<DeploymentView>)
    requires CatalogOk(models, versions) && DeploymentsOk(deployments, |versions|)
    ensures |r| == |deployments|
    ensures forall i :: 0 <= i < |r| ==>
      var v := versions[deployments[i].versionId - 1];
      r[i] == DeploymentView(deployments[i], v.version, OwnerName(models, v))
  {
    seq(|deployments|, i requires 0 <= i < |deployments| =>
      var v := versions[deployments[i].versionId - 1];
      DeploymentView(deployments[i], v.version, OwnerName(models, v)))
  }

  lemma JoinDeploymentsAscending(models: seq<ModelRow>, versions: seq<VersionRow>, deployments: seq<DeploymentRow>, clock: nat)
    requires CatalogOk(models, versions) && DeploymentsOk(deployments, |versions|)
    requires Stamped(deployments, DeployedAt, clock)
    ensures Ascending(JoinDeployments(models, versions, deployments), ViewDeployedAt)
  {
    StampedAscending(deployments, DeployedAt, clock);
    var r := JoinDeployments(models, versions, deployments);
    forall i, j | 0 <= i < j < |r| ensures ViewDeployedAt(r[i]) <= ViewDeployedAt(r[j]) {
      assert DeployedAt(deployments[i]) <= DeployedAt(deployments[j]);
    }
  }

  /** `WHERE m.name = ? AND d.status = 'completed'`. */
  function CompletedOf(modelName: string): DeploymentView -> bool {
    (v: DeploymentView) => v.modelName == modelName && v.row.status == Completed
  }

  /** The database: one sequence per table and the clock `CURRENT_TIMESTAMP` reads. */
  class Db {
    var models: seq<ModelRow>
    var versions: seq<VersionRow>
    var deployments: seq<DeploymentRow>
    var snapshots: seq<SnapshotRow>
    var nextSnapshotId: nat
    var metrics: seq<MetricRow>
    var alerts: seq<AlertRow>
    var traffic: seq<TrafficRow>
    var clock: nat

    /** The schema's constraints; the traffic table has none, so its writes never disturb them. */
    ghost predicate Valid()
      reads this`models, this`versions, this`deployments, this`snapshots, this`nextSnapshotId
      reads this`metrics, this`alerts, this`clock
    {
      && CatalogOk(models, versions)
      && Stamped(models, ModelCreatedAt, clock)
      && Stamped(versions, VersionCreatedAt, clock)
      && DeploymentsOk(deployments, |versions|)
      && Stamped(deployments, DeployedAt, clock)
      && SnapshotsOk(snapshots, nextSnapshotId)
      && Stamped(snapshots, SnapshotCreatedAt, clock)
      && Stamped(metrics, MetricTimestamp, clock)
      && AlertsOk(alerts, |versions|)
      && Stamped(alerts, AlertTimestamp, clock)
    }

    /** `init_database`: every table created empty. */
    constructor (clock: nat)
      ensures Valid()
      ensures models == [] && versions == [] && deployments == [] && snapshots == []
      ensures metrics == [] && alerts == [] && traffic == []
      ensures nextSnapshotId == 1 && this.clock == clock
    {
      models, versions, deployments, snapshots := [], [], [], [];
      metrics, alerts, traffic := [], [], [];
      nextSnapshotId := 1;
      this.clock := clock;
    }

    /** `INSERT INTO models (name, description)` when no model has that name: the next id, stamped now. */
    method InsertModel(name: string, description: string) returns (id: nat)
      requires Valid() && forall i :: 0 <= i < |models| ==> models[i].name != name
      modifies this`models
      ensures Valid()
      ensures id == |old(models)| + 1 && models == old(models) + [ModelRow(id, name, description, clock)]
    {
      id := |models| + 1;
      var row := ModelRow(id, name, description, clock);
      StampedAppend(models, row, ModelCreatedAt, clock);
      models := models + [row];
      assert forall i :: 0 <= i < |old(models)| ==> models[i] == old(models)[i];
      CatalogWriteKeepsValid(this);
    }

    /** `INSERT INTO versions (model_id, version, status, metadata)` when the pair is new: the next id, stamped now. */
    method InsertVersion(modelId: nat, version: string, status: string, metadata: Option<Metadata>) returns (id: nat)
      requires Valid() && 1 <= modelId <= |models|
      requires forall k :: 0 <= k < |versions| ==> versions[k].modelId != modelId || versions[k].version != version
      modifies this`versions
      ensures Valid()
      ensures id == |old(versions)| + 1
      ensures versions == old(versions) + [VersionRow(id, modelId, version, status, metadata, clock)]
    {
      id := |versions| + 1;
      var row := VersionRow(id, modelId, version, status, metadata, clock);
      StampedAppend(versions, row, VersionCreatedAt, clock);
      versions := versions + [row];
      assert forall k :: 0 <= k < |old(versions)| ==> versions[k] == old(versions)[k];
      CatalogWriteKeepsValid(this);
    }

    /** `UPDATE versions SET status = ?` or `SET metadata = ?` on row `k`: the key columns stay. */
    method UpdateVersion(k: nat, row: VersionRow)
      requires Valid() && k < |versions|
      requires row.id == versions[k].id && row.modelId == versions[k].modelId
      requires row.version == versions[k].version && row.createdAt == versions[k].createdAt
      modifies this`versions
      ensures Valid() && versions == old(versions)[k := row]
    {
      var updated := versions[k := row];
      assert SameKeys(versions, updated);
      ResolveSameKeys(models, versions, updated, "", "");
      StampedSameStamps(versions, updated, VersionCreatedAt, clock);
      versions := updated;
      CatalogWriteKeepsValid(this);
    }

    /** `INSERT INTO metrics (version_id, metric_name, metric_value)`: one sample, stamped now. */
    method InsertMetric(versionId: nat, name: string, value: real)
      requires Valid()
      modifies this`metrics
      ensures Valid() && metrics == old(metrics) + [MetricRow(versionId, name, value, clock)]
    {
      StampedAppend(metrics, MetricRow(versionId, name, value, clock), MetricTimestamp, clock);
      metrics := metrics + [MetricRow(versionId, name, value, clock)];
      LogWriteKeepsValid(this);
    }

    /** `INSERT INTO alerts (version_id, alert_type, message, severity)`: the next id, stamped now. */
    method InsertAlert(versionId: nat, alertType: AlertType, severity: Severity) returns (id: nat)
      requires Valid() && 1 <= versionId <= |versions|
      modifies this`alerts
      ensures Valid() && id == |old(alerts)| + 1
      ensures alerts == old(alerts) + [AlertRow(id, versionId, alertType, severity, clock)]
    {
      id := |alerts| + 1;
      var row := AlertRow(id, versionId, alertType, severity, clock);
      StampedAppend(alerts, row, AlertTimestamp, clock);
      alerts := alerts + [row];
      assert forall i :: 0 <= i < |old(alerts)| ==> alerts[i] == old(alerts)[i];
      LogWriteKeepsValid(this);
    }

    /** Time passes: `CURRENT_TIMESTAMP` never reads earlier than before. */
    method AdvanceClock(t: nat)
      requires Valid() && clock <= t
      modifies this`clock
      ensures Valid() && clock == t
    {
      StampedLater(models, ModelCreatedAt, clock, t);
      StampedLater(versions, VersionCreatedAt, clock, t);
      StampedLater(deployments, DeployedAt, clock, t);
      StampedLater(snapshots, SnapshotCreatedAt, clock, t);
      StampedLater(metrics, MetricTimestamp, clock, t);
      StampedLater(alerts, AlertTimestamp, clock, t);
      clock := t;
    }
  }

  /** A write to the catalog that keeps its own constraints and only adds versions keeps all of them. */
  twostate lemma CatalogWriteKeepsValid(db: Db)
    requires old(db.Valid())
    requires unchanged(db`deployments, db`snapshots, db`nextSnapshotId, db`metrics, db`alerts, db`clock)
    requires CatalogOk(db.models, db.versions) && |old(db.versions)| <= |db.versions|
    requires Stamped(db.models, ModelCreatedAt, db.clock) && Stamped(db.versions, VersionCreatedAt, db.clock)
    ensures db.Valid()
  {
  }

  /** A write to the metrics or alerts table that keeps their own constraints keeps all of them. */
  twostate lemma LogWriteKeepsValid(db: Db)
    requires old(db.Valid())
    requires unchanged(db`models, db`versions, db`deployments, db`snapshots, db`nextSnapshotId, db`clock)
    requires Stamped(db.metrics, MetricTimestamp, db.clock)
    requires AlertsOk(db.alerts, |db.versions|) && Stamped(db.alerts, AlertTimestamp, db.clock)
    ensures db.Valid()
  {
  }

  /** A write to the traffic table alone keeps the schema's constraints. */
  twostate lemma TrafficWriteKeepsValid(db: Db)
    requires old(db.Valid())
    requires unchanged(db`models, db`versions, db`deployments, db`snapshots, db`nextSnapshotId)
    requires unchanged(db`metrics, db`alerts, db`clock)
    ensures db.Valid()
  {
  }

  /** A write to the snapshots table that keeps its own constraints keeps all of them. */
  twostate lemma SnapshotWriteKeepsValid(db: Db)
    requires old(db.Valid())
    requires unchanged(db`models, db`versions, db`deployments, db`metrics, db`alerts, db`clock)
    requires SnapshotsOk(db.snapshots, db.nextSnapshotId) && Stamped(db.snapshots, SnapshotCreatedAt, db.clock)
    ensures db.Valid()
  {
  }
}
