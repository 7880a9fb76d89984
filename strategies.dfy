/**
 * The three deployment strategies. Each one is a fixed series of traffic
 * writes for the deployed version, separated by health checks. The source's
 * `_health_check` is a stub that always passes; here the answers are a
 * parameter, `healthy(k)` being the answer of the k-th check a strategy
 * makes, so that the failure branches can be stated too. The simulated
 * waits (`time.sleep`) have no effect on state and are left out.
 */
module Strategies {
  import opened Wrappers
  import opened Storage
  import opened Traffic

  datatype Strategy = Direct | BlueGreen | Canary

  /** The canary rollout's traffic stages. */
  const CanaryStages: seq<int> := [10, 50, 100]

  /** The shipped `_health_check`: every check passes. */
  function StubHealthCheck(k: nat): bool { true }

  /**
   * What a strategy does, as a value: the percentages it writes, in order,
   * and whether it reports success.
   */
  function Plan(strategy: Strategy, healthy: nat -> bool): (r: (seq<int>, bool))
    ensures 1 <= |r.0| <= ChecksOf(strategy) + 1
  {
    match strategy
    case Direct => ([100], true)
    case BlueGreen => if healthy(0) then ([0, 100], true) else ([0], false)
    case Canary => CanaryFrom(healthy, 0)
  }

  /** The canary loop from stage `i` on: write the stage, check, abort to 0 on failure. */
  function CanaryFrom(healthy: nat -> bool, i: nat): (r: (seq<int>, bool))
    requires i <= |CanaryStages|
    ensures |r.0| <= |CanaryStages| - i + 1
    ensures r.1 ==> r.0 == CanaryStages[i..]
    ensures !r.1 ==> |r.0| >= 2 && r.0[|r.0| - 1] == 0
    decreases |CanaryStages| - i
  {
    if i == |CanaryStages| then ([], true)
    else if !healthy(i) then ([CanaryStages[i], 0], false)
    else
      var rest := CanaryFrom(healthy, i + 1);
      assert CanaryStages[i..] == [CanaryStages[i]] + CanaryStages[i + 1..];
      ([CanaryStages[i]] + rest.0, rest.1)
  }

  /** How many health checks a strategy makes when all of them pass. */
  function ChecksOf(strategy: Strategy): nat {
    match strategy
    case Direct => 0
    case BlueGreen => 1
    case Canary => |CanaryStages|
  }

  lemma {:induction false} CanaryFromHealthy(healthy: nat -> bool, i: nat)
    requires i <= |CanaryStages|
    requires forall k :: i <= k < |CanaryStages| ==> healthy(k)
    ensures CanaryFrom(healthy, i) == (CanaryStages[i..], true)
    decreases |CanaryStages| - i
  {
    if i < |CanaryStages| {
      CanaryFromHealthy(healthy, i + 1);
      assert CanaryStages[i..] == [CanaryStages[i]] + CanaryStages[i + 1..];
    }
  }

  lemma {:induction false} CanaryFromAborts(healthy: nat -> bool, i: nat, k: nat)
    requires i <= k < |CanaryStages|
    requires forall j :: i <= j < k ==> healthy(j)
    requires !healthy(k)
    ensures CanaryFrom(healthy, i) == (CanaryStages[i..k + 1] + [0], false)
    decreases k - i
  {
    if i < k {
      CanaryFromAborts(healthy, i + 1, k);
      assert healthy(i);
      assert CanaryStages[i..k + 1] == [CanaryStages[i]] + CanaryStages[i + 1..k + 1];
      assert [CanaryStages[i]] + (CanaryStages[i + 1..k + 1] + [0]) == CanaryStages[i..k + 1] + [0];
    } else {
      assert CanaryStages[i..k + 1] + [0] == [CanaryStages[i], 0];
    }
  }

  /** With every check healthy, the canary writes 10, 50 and 100 in that order and succeeds. */
  lemma CanaryAllHealthy(healthy: nat -> bool)
    requires forall k :: 0 <= k < |CanaryStages| ==> healthy(k)
    ensures Plan(Canary, healthy) == ([10, 50, 100], true)
  {
    CanaryFromHealthy(healthy, 0);
  }

  /** A canary whose check fails first at stage k writes stages 0..k, then 0, and reports failure. */
  lemma CanaryAbortAt(healthy: nat -> bool, k: nat)
    requires k < |CanaryStages|
    requires forall j :: 0 <= j < k ==> healthy(j)
    requires !healthy(k)
    ensures Plan(Canary, healthy) == (CanaryStages[..k + 1] + [0], false)
  {
    CanaryFromAborts(healthy, 0, k);
  }

  /** The traffic a healthy blue-green switch leaves behind. */
  lemma BlueGreenWrites(rows: seq<TrafficRow>, vid: Option<nat>)
    ensures rows + Written(vid, [0]) + Written(vid, [100]) == rows + Written(vid, [0, 100])
  {
    WrittenConcat(vid, [0], [100]);
    assert [0] + [100] == [0, 100];
  }

  /** The traffic a canary leaves behind when its check fails first at stage `k`. */
  lemma CanaryAbortWrites(rows: seq<TrafficRow>, vid: Option<nat>, healthy: nat -> bool, k: nat)
    requires k < |CanaryStages|
    requires forall j :: 0 <= j < k ==> healthy(j)
    requires !healthy(k)
    ensures rows + Written(vid, CanaryStages[..k + 1]) + Written(vid, [0]) == rows + Written(vid, Plan(Canary, healthy).0)
    ensures !Plan(Canary, healthy).1
  {
    CanaryAbortAt(healthy, k);
    WrittenConcat(vid, CanaryStages[..k + 1], [0]);
  }

  /** The traffic a canary leaves behind when every check passes. */
  lemma CanaryHealthyWrites(rows: seq<TrafficRow>, vid: Option<nat>, healthy: nat -> bool)
    requires forall k :: 0 <= k < |CanaryStages| ==> healthy(k)
    ensures rows + Written(vid, CanaryStages[..|CanaryStages|]) == rows + Written(vid, Plan(Canary, healthy).0)
    ensures Plan(Canary, healthy).1
  {
    CanaryAllHealthy(healthy);
    assert CanaryStages[..|CanaryStages|] == [10, 50, 100];
  }

  /** A strategy succeeds exactly when all the checks it makes pass. */
  lemma PlanSucceedsIffHealthy(strategy: Strategy, healthy: nat -> bool)
    ensures Plan(strategy, healthy).1 <==> forall k :: 0 <= k < ChecksOf(strategy) ==> healthy(k)
  {
    if strategy == Canary {
      if forall k :: 0 <= k < |CanaryStages| ==> healthy(k) {
        CanaryAllHealthy(healthy);
      } else {
        var k :| 0 <= k < |CanaryStages| && !healthy(k) && forall j :: 0 <= j < k ==> healthy(j);
        CanaryAbortAt(healthy, k);
      }
    }
  }

  /** Every strategy writes at least once, only percentages in [0, 100], and ends at 100 on success and 0 on failure. */
  lemma PlanWrites(strategy: Strategy, healthy: nat -> bool)
    ensures var (writes, ok) := Plan(strategy, healthy);
      && writes != []
      && (forall i :: 0 <= i < |writes| ==> 0 <= writes[i] <= 100)
      && writes[|writes| - 1] == if ok then 100 else 0
  {
    if strategy == Canary {
      if forall k :: 0 <= k < |CanaryStages| ==> healthy(k) {
        CanaryAllHealthy(healthy);
      } else {
        var k :| 0 <= k < |CanaryStages| && !healthy(k) && forall j :: 0 <= j < k ==> healthy(j);
        CanaryAbortAt(healthy, k);
      }
    }
  }

  /** With the shipped stub check, every strategy reports success. */
  lemma StubAlwaysSucceeds(strategy: Strategy)
    ensures Plan(strategy, StubHealthCheck).1
  {
    PlanSucceedsIffHealthy(strategy, StubHealthCheck);
  }

  /** `DirectDeployment.deploy`: set traffic to 100 and report success. */
  method DirectDeploy(db: Db, modelName: string, version: string, deploymentId: nat) returns (ok: bool)
    requires CatalogOk(db.models, db.versions)
    modifies db`traffic
    ensures db.traffic == old(db.traffic) + Written(Resolve(db.models, db.versions, modelName, version), Plan(Direct, StubHealthCheck).0)
    ensures ok == Plan(Direct, StubHealthCheck).1
  {
    SetTraffic(db, modelName, version, 100);
    return true;
  }

  /** `BlueGreenDeployment.deploy`: stage at 0, check once, then switch to 100. */
  method BlueGreenDeploy(db: Db, modelName: string, version: string, deploymentId: nat, healthy: nat -> bool)
    returns (ok: bool)
    requires CatalogOk(db.models, db.versions)
    modifies db`traffic
    ensures db.traffic == old(db.traffic) + Written(Resolve(db.models, db.versions, modelName, version), Plan(BlueGreen, healthy).0)
    ensures ok == Plan(BlueGreen, healthy).1
  {
    ghost var vid := Resolve(db.models, db.versions, modelName, version);
    ghost var before := db.traffic;
    SetTraffic(db, modelName, version, 0);
    if !healthy(0) {
      return false;
    }
    SetTraffic(db, modelName, version, 100);
    BlueGreenWrites(before, vid);
    return true;
  }

  /** `CanaryDeployment.deploy`: the staged rollout loop with its early abort. */
  method CanaryDeploy(db: Db, modelName: string, version: string, deploymentId: nat, healthy: nat -> bool)
    returns (ok: bool)
    requires CatalogOk(db.models, db.versions)
    modifies db`traffic
    ensures db.traffic == old(db.traffic) + Written(Resolve(db.models, db.versions, modelName, version), Plan(Canary, healthy).0)
    ensures ok == Plan(Canary, healthy).1
  {
    ghost var vid := Resolve(db.models, db.versions, modelName, version);
    ghost var before := db.traffic;
    var stages := CanaryStages;
    for i := 0 to |stages|
      invariant forall j :: 0 <= j < i ==> healthy(j)
      invariant db.traffic == before + Written(vid, stages[..i])
    {
      SetTraffic(db, modelName, version, stages[i]);
      WrittenStep(before, vid, stages, i);
      if !healthy(i) {
        SetTraffic(db, modelName, version, 0);
        CanaryAbortWrites(before, vid, healthy, i);
        return false;
      }
    }
    CanaryHealthyWrites(before, vid, healthy);
    return true;
  }

  /** `self.strategies[strategy].deploy(...)`: run the chosen strategy. */
  method Execute(strategy: Strategy, db: Db, modelName: string, version: string, deploymentId: nat,
                 healthy: nat -> bool) returns (ok: bool)
    requires CatalogOk(db.models, db.versions)
    modifies db`traffic
    ensures db.traffic == old(db.traffic) + Written(Resolve(db.models, db.versions, modelName, version), Plan(strategy, healthy).0)
    ensures ok == Plan(strategy, healthy).1
  {
    match strategy {
      case Direct => ok := DirectDeploy(db, modelName, version, deploymentId);
      case BlueGreen => ok := BlueGreenDeploy(db, modelName, version, deploymentId, healthy);
      case Canary => ok := CanaryDeploy(db, modelName, version, deploymentId, healthy);
    }
  }
}
