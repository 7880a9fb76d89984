# Flask-Model-Registry in Dafny

This project models the core of Flask-Model-Registry. That core is a registry of AI model versions kept in SQLite. Around it sit a deployment manager with three traffic strategies, snapshots and rollbacks of deployments, metadata and tags, PEP 440 version arithmetic, metric collection, performance ranking, alerting, a health checker and a model cache.

The model is built this way:

- The database is one Dafny class, `Storage.Db`. It holds one sequence per table, in insertion order, and a `clock` for what `CURRENT_TIMESTAMP` reads.
- Deployments, versions, models and alerts are never deleted, so an AUTOINCREMENT id is the row's position plus one. Snapshots are deleted, so their ids come from an explicit counter.
- `Db.Valid` states the schema's constraints:
  - `models.name UNIQUE`;
  - `UNIQUE(model_id, version)`;
  - every version, deployment and alert refers to an existing model or version;
  - ids increase;
  - every table except `traffic` is ascending in its timestamp, and no timestamp is later than the clock.
- The `traffic` table has no constraint, so its writes need only the catalog's.
- Every manager of the source is a class holding the `Db`. Its methods change exactly the tables the Python statements touch.
- Every read-only query is a function with a contract of its own.
- `ORDER BY ... DESC LIMIT n` is specified relationally by `Query.IsOrderByDescLimit`: the answer's rows are drawn from the matching rows, it has the right count, it is descending, and no newer match is left out, every copy of it counted (identical rows, such as two equal samples in one second, are kept with their multiplicity). Ties are left open, as SQLite leaves them.
- Deployment strategies answer their health checks through a parameter `healthy: nat -> bool`, the answer to the k-th check. The shipped stub is `Strategies.StubHealthCheck`, under which every check passes.
- The health checker talks to a `Health.Predictor`, which answers its n-th `predict` call with a scripted `Answer`.
- Python's `round` is a parameter `round: (real, nat) -> real`.

Where the code and its written description disagree, the model follows the code:

- `INSERT OR REPLACE INTO traffic` always appends a row, because `traffic.version_id` is not unique.
- `_get_traffic_config` reads the first row of a version, not the latest one. `Traffic.FirstRowWins` proves that a version's later traffic writes are then invisible to snapshots.
- `check_error_rate(model, 0)` divides by zero. The model returns `Err(ZeroRequests)`.
- A model name that contains `:` can share a cache key with a `gemini` key (`Loader.CacheKeysCanCollide`).

## Model

| member | source | states |
|---|---|---|
| Storage.Resolve | deployment/deployment_manager.py:71-85 | `SELECT v.id ... WHERE m.name = ? AND v.version = ?`: the id is `Some(k+1)` exactly when row k is that version of that model, and None when no row is |
| Storage.ResolveStable | registry/model_registry.py:28-108 | nothing deletes models or versions, so a version that resolved once resolves to the same id after any growth of the catalog |
| Storage.ResolveSameKeys | registry/model_registry.py:222-230 | an UPDATE of `status` or `metadata` keeps the schema constraints and every lookup's answer |
| Storage.JoinDeployments | deployment/deployment_manager.py:130-136 | the deployment join keeps every row, because every deployment refers to a registered version; each view carries its own row, its version string and its model's name |
| Storage.Db.constructor | storage/database.py:12-108 | `init_database`: every table is empty, the snapshot counter starts at 1, and the constraints hold |
| Storage.Db.InsertModel | registry/model_registry.py:43-48 | an insert of a new name gets the next id and the current stamp, and the constraints are kept |
| Storage.Db.InsertVersion | registry/model_registry.py:93-98 | an insert of a new (model, version) pair gets the next id and the current stamp, and the constraints are kept |
| Storage.Db.UpdateVersion | registry/model_registry.py:222-230 | an update of row k that keeps its key columns changes row k only, and the constraints are kept |
| Storage.Db.InsertMetric | tracking/metrics_collector.py:46-49 | one metric sample is appended with the current stamp |
| Storage.Db.InsertAlert | tracking/alerting.py:232-240 | one alert is appended under the next id with the current stamp |
| Storage.Db.AdvanceClock | storage/database.py:28 | `CURRENT_TIMESTAMP` never runs backwards, and every table stays stamped no later than the clock |
| Query.Filter | deployment/deployment_manager.py:163 | a `WHERE` answer is no longer than the table, and every row in it matches |
| Query.FilterConcat | tracking/performance_tracker.py:197-208 | rows appended to a table add their matches after the old matches |
| Query.FilterMembers | registry/model_registry.py:191-196 | a `WHERE` answer draws rows from the table (as a sub-multiset) and misses no matching row |
| Query.Reverse | deployment/deployment_manager.py:164 | reading the table backwards gives row `|s|-1-i` at position i |
| Query.Limited | deployment/deployment_manager.py:165 | `LIMIT` never adds rows, and it lets at most `limit` through; a negative limit means no limit |
| Query.Take | deployment/deployment_manager.py:165 | `LIMIT` is a prefix of the ordered rows, of length `Limited` |
| Query.NewestFirstIsOrderByDesc | deployment/deployment_manager.py:157-175 | on a table ascending in its stamp, newest-first filtering is a correct answer to `WHERE ... ORDER BY stamp DESC LIMIT n`, keeping every copy of each match newer than a returned row |
| Query.OrderByDescDrawsMatches | tracking/alerting.py:145-167 | every row an `ORDER BY ... LIMIT` answer holds is a matching row of the table |
| Query.FirstIndex | rollback/snapshot_manager.py:170-178 | `fetchone()` without `ORDER BY` is the first matching row in scan order, and None exactly when nothing matches |
| Traffic.Written | deployment/deployment_strategy.py:58-84 | `_set_traffic` appends one row per write when the version resolves, and nothing when it does not |
| Traffic.TrafficOf | rollback/snapshot_manager.py:165-178 | `_get_traffic_config` reads 0 when the version has no row, and otherwise the percentage of its first row |
| Traffic.CurrentAfterWrites | deployment/deployment_strategy.py:183-202 | after a series of writes to a version, its most recent traffic is the last value written |
| Traffic.CurrentUntouched | rollback/rollback_manager.py:52-55 | rows written for other versions leave a version's most recent traffic unchanged |
| Traffic.FirstRowWins | rollback/snapshot_manager.py:170-178 | once a version has a traffic row, later writes for it do not change what `_get_traffic_config` reads |
| Traffic.ZeroWhere | rollback/rollback_manager.py:215-223 | `UPDATE traffic SET percentage = 0 WHERE version_id IN (...)` keeps every row's version and zeroes exactly the cleared ones |
| Traffic.ZeroedReadsZero | rollback/rollback_manager.py:215-223 | a cleared version then reads 0, both as its most recent traffic and to the first-row reader |
| Traffic.ZeroKeeps | rollback/rollback_manager.py:215-223 | a version outside the cleared set keeps both of its readings |
| Traffic.SetTraffic | rollback/rollback_manager.py:184-208 | `_set_traffic` resolves the version, then appends one row, or nothing when it does not resolve |
| Traffic.InsertTraffic | rollback/snapshot_manager.py:210-221 | `_restore_traffic` appends the row by version id, with no lookup |
| Traffic.ClearOtherTraffic | rollback/rollback_manager.py:210-226 | `_clear_other_traffic` zeroes the rows of the model's other versions and leaves every other row alone |
| Strategies.CanaryAllHealthy | deployment/deployment_strategy.py:180-202 | with every check healthy, the canary writes 10, 50 and 100 in that order and succeeds |
| Strategies.Plan | deployment/deployment_strategy.py:37-202 | every strategy writes at least once and at most once more than the health checks it makes |
| Strategies.CanaryFrom | deployment/deployment_strategy.py:183-202 | the canary loop from a stage on writes at most one entry per remaining stage plus the abort; success means it wrote exactly the remaining stages, failure that its last write is 0 |
| Strategies.CanaryAbortAt | deployment/deployment_strategy.py:192-197 | when the canary's check first fails at stage k, it writes stages 0..k, then 0, and fails |
| Strategies.BlueGreenWrites | deployment/deployment_strategy.py:107-123 | a healthy blue-green run writes 0 and then 100 |
| Strategies.CanaryAbortWrites | deployment/deployment_strategy.py:192-197 | the traffic an aborted canary leaves behind is its plan's writes, and it reports failure |
| Strategies.CanaryHealthyWrites | deployment/deployment_strategy.py:183-202 | the traffic a healthy canary leaves behind is its plan's writes, and it reports success |
| Strategies.PlanSucceedsIffHealthy | deployment/deployment_strategy.py:113-116 | a strategy succeeds exactly when every check it makes passes: none for direct, one for blue-green, three for canary |
| Strategies.PlanWrites | deployment/deployment_strategy.py:50-56 | every strategy writes at least once and only percentages in [0, 100]; it ends at 100 on success and at 0 on failure |
| Strategies.StubAlwaysSucceeds | deployment/deployment_strategy.py:153-157 | with the shipped always-true `_health_check`, every strategy reports success |
| Strategies.DirectDeploy | deployment/deployment_strategy.py:37-56 | direct deployment writes 100 for the resolved version and reports success |
| Strategies.BlueGreenDeploy | deployment/deployment_strategy.py:92-123 | blue-green writes 0, checks once, and writes 100 only if the check passes; the verdict is the check's |
| Strategies.CanaryDeploy | deployment/deployment_strategy.py:165-202 | the canary loop writes its stages and aborts to 0 at the first failed check; both the traffic and the verdict are those of its plan |
| Strategies.Execute | deployment/deployment_manager.py:58-59 | dispatch to the chosen strategy: the traffic and the verdict are those of its plan |
| Deployments.Joined | deployment/deployment_manager.py:130-136 | the joined deployments, one per row, ascending in `deployed_at` |
| Deployments.GetDeployment | deployment/deployment_manager.py:117-141 | `get_deployment` finds something exactly when a row has that id, and then it is that row's view |
| Deployments.ListDeployments | deployment/deployment_manager.py:143-180 | `list_deployments` is an `ORDER BY deployed_at DESC LIMIT` answer, filtered by model only when a non-empty name is given |
| Deployments.GetActiveDeployment | deployment/deployment_manager.py:182-208 | `get_active_deployment` is None exactly when the model has no completed deployment; otherwise it is a completed deployment with the latest `deployed_at` |
| Deployments.MostRecent | deployment/deployment_manager.py:195-205 | `LIMIT 1` of a descending order is empty iff nothing matches, and otherwise holds a newest match |
| Deployments.DeploymentManager.constructor | deployment/deployment_manager.py:19-31 | the strategy table maps `direct`, `blue-green` and `canary` to their strategies |
| Deployments.DeploymentManager.CreateDeployment | deployment/deployment_manager.py:87-101 | a pending deployment is appended under the next id, and that id is returned |
| Deployments.DeploymentManager.UpdateDeploymentStatus | deployment/deployment_manager.py:103-115 | the row with that id gets the status and a `completed_at` stamp; an unknown id changes nothing |
| Deployments.DeploymentManager.Run | deployment/deployment_manager.py:54-69 | one deployment is recorded with the outcome of its strategy's plan, and the traffic is that plan's writes |
| Deployments.DeploymentManager.Start | deployment/deployment_manager.py:54-59 | a pending row is created and the strategy runs |
| Deployments.DeploymentManager.Finish | deployment/deployment_manager.py:61-67 | `completed` or `failed` is recorded at the time the strategy finished |
| Deployments.DeploymentManager.Deploy | deployment/deployment_manager.py:34-69 | an unknown strategy is rejected first, then an unregistered version, and neither writes; otherwise the new id is the next one and the row records the plan's outcome |
| Snapshots.FindSnapshot | rollback/snapshot_manager.py:198-208 | `_get_snapshot` is None exactly when no row has that id, and otherwise a row with that id |
| Snapshots.Capture | rollback/snapshot_manager.py:49-56 | the snapshot record holds the deployment's id, version id, version, model name and strategy, and the traffic value read |
| Snapshots.FindStored | rollback/snapshot_manager.py:180-196 | a row stored under the counter's next id is what `_get_snapshot` then finds for that id |
| Snapshots.DeleteForgetsOnlyThatId | rollback/snapshot_manager.py:130-143 | after `delete_snapshot`, that id is gone and every other id reads as before |
| Snapshots.ListSnapshots | rollback/snapshot_manager.py:91-128 | `list_snapshots` is an `ORDER BY created_at DESC LIMIT` answer, filtered by deployment only for a non-zero id |
| Snapshots.SnapshotManager.CreateSnapshot | rollback/snapshot_manager.py:28-62 | an unknown deployment stores nothing; otherwise one row is stored under the next id, holding the deployment and the traffic `_get_traffic_config` reads |
| Snapshots.SnapshotManager.StoreSnapshot | rollback/snapshot_manager.py:180-196 | the insert takes the counter's id, bumps the counter, and stamps the row now |
| Snapshots.SnapshotManager.RestoreSnapshot | rollback/snapshot_manager.py:64-89 | succeeds iff the id exists; then the captured traffic row is appended and becomes that version's most recent traffic; otherwise nothing is written |
| Snapshots.SnapshotManager.DeleteSnapshot | rollback/snapshot_manager.py:130-143 | the rows with that id are removed, and the id is no longer found |
| Rollback.RecentDeployments | rollback/rollback_manager.py:142-160 | the model's completed deployments, newest first, at most `limit` of them |
| Rollback.ViewResolves | rollback/rollback_manager.py:184-198 | a deployment's version, looked up again by name and version string, resolves to the version it was made of |
| Rollback.VersionExists | rollback/rollback_manager.py:167-182 | `COUNT(*) > 0` holds exactly when some row is that version of that model |
| Rollback.RollbackToVersionEffect | rollback/rollback_manager.py:78-82 | after a rollback to a version, the target reads 100, the model's other versions read 0, and versions of other models read as before |
| Rollback.RollbackManager.RollbackToPrevious | rollback/rollback_manager.py:29-58 | with fewer than two completed deployments, None and no write; otherwise the previous version gets 100, the current one 0, and the previous version string is returned |
| Rollback.RollbackManager.SwapTraffic | rollback/rollback_manager.py:51-55 | the two writes, with their effect on the most recent traffic of both versions |
| Rollback.RollbackManager.RollbackToVersion | rollback/rollback_manager.py:60-85 | succeeds iff the version exists; then 100 is written for it and the model's other versions are zeroed; otherwise nothing is written |
| Rollback.RollbackManager.RollbackFromSnapshot | rollback/rollback_manager.py:87-107 | does and answers exactly what `restore_snapshot` does and answers |
| Rollback.RollbackManager.AutoRollbackOnError | rollback/rollback_manager.py:109-140 | triggers iff there are two completed deployments, the stub error rate exceeds the threshold, and the previous version string is non-empty; traffic changes only when the rollback runs |
| Registry.GetModel | registry/model_registry.py:110-129 | `get_model` is None iff no model has that name, and otherwise the model with that name |
| Registry.GetVersion | registry/model_registry.py:131-160 | `get_version` is None iff no row is that version of that model, and otherwise that row |
| Registry.StoredMetadata | registry/model_registry.py:90 | metadata that is None or `{}` is stored as NULL, and anything else as given |
| Registry.InsertByName | registry/model_registry.py:172 | placing a model into a list sorted by name keeps the list sorted and adds exactly that model |
| Registry.ListModels | registry/model_registry.py:162-176 | `list_models` is every model, sorted by name in SQLite's binary collation |
| Registry.ListVersions | registry/model_registry.py:178-208 | `list_versions` is the model's versions, newest-created first |
| Registry.RegisteredVersionFound | registry/model_registry.py:93-101 | a version appended by `register_version` is what `get_version` then finds |
| Registry.DuplicateIffResolves | registry/model_registry.py:92-105 | the insert hits `UNIQUE(model_id, version)` exactly when the version already resolves |
| Registry.ModelRegistry.RegisterModel | registry/model_registry.py:28-61 | a new name gets the next id; a taken name returns the existing id and adds nothing; either way `get_model` then finds the returned id |
| Registry.ModelRegistry.RegisterVersion | registry/model_registry.py:63-108 | an unknown model or a taken version raises and writes nothing; otherwise the version is appended, with falsy metadata stored as NULL |
| Registry.ModelRegistry.UpdateVersionStatus | registry/model_registry.py:210-233 | only the matching version's status changes; when nothing matches, nothing changes |
| Registry.StatusUpdateSeen | registry/model_registry.py:222-230 | after `update_version_status`, `get_version` reports the new status with every other column as before |
| Metadata.WithTag | registry/metadata_store.py:115-118 | the tag is appended to `tags`, and every other key stays |
| Metadata.RemoveFirst | registry/metadata_store.py:135 | `list.remove` drops one occurrence when there is one, and otherwise changes nothing |
| Metadata.RemoveFirstSplits | registry/metadata_store.py:135 | `list.remove` cuts at the first occurrence and keeps both sides in order |
| Metadata.WithoutTag | registry/metadata_store.py:133-136 | the first occurrence of the tag leaves `tags`, and every other key stays |
| Metadata.Merged | registry/metadata_store.py:94-97 | the updates win, every other key of the current object (or `{}`) stays, and no other key appears |
| Metadata.GetMetadata | registry/metadata_store.py:57-82 | `get_metadata` is the metadata column of the matching row, and None when no row matches |
| Metadata.SetMetadata | registry/metadata_store.py:42-50 | the UPDATE sets the metadata of the matching row only and keeps the key columns and constraints |
| Metadata.AddedTag | registry/metadata_store.py:104-120 | the versions table after `add_tag` keeps the catalog's constraints |
| Metadata.RemovedTag | registry/metadata_store.py:122-138 | the versions table after `remove_tag` keeps the catalog's constraints |
| Metadata.AddTagSeen | registry/metadata_store.py:113-119 | after `add_tag` the tag is listed, and a second `add_tag` changes nothing |
| Metadata.RemoveUndoesAdd | registry/metadata_store.py:113-137 | `remove_tag` after `add_tag` of a new tag restores the version's tag list |
| Metadata.VersionsByTag | registry/metadata_store.py:154-170 | the answer has no more entries than the versions table has rows |
| Metadata.VersionsByTagMembers | registry/metadata_store.py:163-168 | a version string is listed iff some row of that model and version has metadata whose tags hold the tag |
| Metadata.TaggedVersionListed | registry/metadata_store.py:104-170 | after `add_tag`, `get_versions_by_tag` lists that version |
| Metadata.MetadataStore.StoreMetadata | registry/metadata_store.py:28-53 | the versions table becomes `SetMetadata` of the object as given, `{}` included |
| Metadata.MetadataStore.UpdateMetadata | registry/metadata_store.py:84-100 | the stored object becomes the current one merged with the updates |
| Metadata.MetadataStore.AddTag | registry/metadata_store.py:104-120 | the versions table becomes `AddedTag` |
| Metadata.MetadataStore.RemoveTag | registry/metadata_store.py:122-138 | the versions table becomes `RemovedTag` |
| Metadata.MetadataStore.GetVersionsByTag | registry/metadata_store.py:140-170 | the loop returns `VersionsByTag`, whose members are exactly the tagged versions of the model |
| Versions.ShowNat | registry/version_manager.py:122-126 | `str(n)` is a non-empty string of digits |
| Versions.ParseShowNat | registry/version_manager.py:122-126 | parsing `str(n)` gives back n |
| Versions.DotIndex | registry/version_manager.py:32 | the first `.` is found exactly when there is one |
| Versions.ParseIffWellFormed | registry/version_manager.py:31-35 | parsing succeeds exactly on texts of the release grammar `N(.N)*` |
| Versions.ParseFormat | registry/version_manager.py:119-131 | parsing reads back the release a text was formatted from |
| Versions.Cmp | registry/version_manager.py:53-58 | the comparison answers only -1, 0 or 1 |
| Versions.CmpMeaning | registry/version_manager.py:53-58 | 0, -1 and 1 mean equal, preceding and following under PEP 440's zero padding |
| Versions.CmpAntisymmetric | registry/version_manager.py:53-58 | swapping the arguments negates the comparison |
| Versions.CmpTransitive | registry/version_manager.py:53-58 | "not after" is transitive, and strictly so when either step is strict |
| Versions.ParseVersion | registry/version_manager.py:21-35 | succeeds iff the text is well formed; otherwise `ValueError` names the text |
| Versions.CompareVersions | registry/version_manager.py:37-58 | the first invalid argument raises; otherwise the answer is the ordering of the parsed releases |
| Versions.CompareSwapped | registry/version_manager.py:37-58 | `compare_versions(a, b) == -compare_versions(b, a)` |
| Versions.IsNewer | registry/version_manager.py:60-71 | true iff the second release precedes the first |
| Versions.NewerAsymmetric | registry/version_manager.py:60-71 | of two versions, at most one is newer than the other |
| Versions.IsCompatible | registry/version_manager.py:73-88 | raises iff either text is invalid; otherwise true iff the major components agree |
| Versions.FirstMax | registry/version_manager.py:104 | `max` with a key: a release no other exceeds, and the first such |
| Versions.ParseAll | registry/version_manager.py:103 | the comprehension succeeds iff every text is valid, then parses each text in place; otherwise it raises naming the first invalid text |
| Versions.GetLatestVersion | registry/version_manager.py:90-106 | None iff the list is empty; raises iff some text is invalid, naming the first invalid text; otherwise the first text with the greatest release |
| Versions.BumpedIsNewer | registry/version_manager.py:121-126 | every bump gives a strictly newer release |
| Versions.IncrementVersion | registry/version_manager.py:108-131 | an invalid version raises, then an unknown part; otherwise the result parses to the bumped release, is newer than the input, and is compatible with it unless the major part was bumped |
| Versions.ValidateVersion | registry/version_manager.py:133-147 | true iff the text is well formed |
| Stats.MinOf | tracking/metrics_collector.py:125 | `MIN` is a sample and no sample is below it |
| Stats.MaxOf | tracking/metrics_collector.py:126 | `MAX` is a sample and no sample is above it |
| Stats.SumBetween | tracking/metrics_collector.py:127 | the sum lies between count times a lower bound and count times an upper bound |
| Stats.AvgBetween | tracking/metrics_collector.py:124 | the average of a non-empty series lies between its minimum and its maximum |
| Stats.SumIsCountTimesAvg | tracking/metrics_collector.py:123-127 | `SUM == COUNT * AVG` |
| Stats.AvgIsAverage | tracking/alerting.py:197 | `AVG ... or 0` is 0 for no sample, and otherwise lies within the samples' range with `COUNT * AVG == SUM` |
| Collector.DistinctNames | tracking/metrics_collector.py:110-116 | `SELECT DISTINCT metric_name` lists exactly the names recorded for the version, each once |
| Collector.SummaryBounds | tracking/metrics_collector.py:121-140 | for a series with samples, min <= avg <= max and both bounds are samples |
| Collector.SummarySum | tracking/metrics_collector.py:121-140 | the unrounded sum is the count times the unrounded average |
| Collector.ListedNameHasSamples | tracking/metrics_collector.py:110-120 | every name the summary lists has at least one sample |
| Collector.GetRecentMetrics | tracking/metrics_collector.py:56-88 | an unknown version gives `[]`; otherwise the series' newest samples, at most `limit`, with every copy of a sample newer than a returned one included |
| Collector.MetricsCollector.CollectMetric | tracking/metrics_collector.py:27-52 | an unknown version records nothing; otherwise exactly one sample |
| Collector.MetricsCollector.GetAggregatedMetrics | tracking/metrics_collector.py:90-144 | None iff the version is unknown; otherwise one rounded summary per distinct name |
| Performance.Trunc | tracking/performance_tracker.py:122 | `int()` truncates toward zero |
| Performance.SuccessPercentBounds | tracking/performance_tracker.py:110-113 | with 0/1 samples the success rate lies in [0, 100] |
| Performance.SuccessPercent | tracking/performance_tracker.py:110-113 | 0 with no success sample, and otherwise the rate times the count is 100 times the number of successes |
| Performance.PredictionCounted | tracking/performance_tracker.py:44-51 | one tracked prediction adds exactly its sample to each of the three series and leaves every other series alone |
| Performance.GetMetrics | tracking/performance_tracker.py:55-125 | None iff the version is unknown; otherwise the names as given, `total_requests` the number of success samples, latency average, minimum and maximum (0 for none) rounded to 3 places, token average rounded to 1 place, token total truncated by `int()`, and `success_rate` the success percentage rounded to 2 places |
| Performance.CompareVersions | tracking/performance_tracker.py:127-151 | None iff either version is unknown; otherwise both metric dicts, and each diff is the second value minus the first |
| Performance.CompareSwapped | tracking/performance_tracker.py:145-151 | swapping the versions swaps the dicts and negates the diffs |
| Performance.AllVersions | tracking/performance_tracker.py:210-224 | `_get_all_versions` has at most one entry per version row |
| Performance.AllVersionsMembers | tracking/performance_tracker.py:215-222 | `_get_all_versions` lists a version string iff the model has a row with that version |
| Performance.Candidates | tracking/performance_tracker.py:167-174 | every ranked version has at least one request |
| Performance.InsertByScore | tracking/performance_tracker.py:177 | placing a version into the ranking adds exactly that version |
| Performance.InsertKeepsDescending | tracking/performance_tracker.py:177 | placing into a ranking sorted by descending score keeps it sorted |
| Performance.SortByScore | tracking/performance_tracker.py:177 | `sort(key=score, reverse=True)` gives a permutation in descending score order |
| Performance.CandidatesStep | tracking/performance_tracker.py:168-174 | one more version either appends its ranked entry, skips it, or fails on a zero average latency |
| Performance.RankOne | tracking/performance_tracker.py:168-174 | a version is skipped iff it is unknown or has no requests; it raises iff it has requests and a zero average latency, naming it; otherwise it gives one entry holding its summary and the score rounded to 3 places |
| Performance.LaterStepsKeepError | tracking/performance_tracker.py:172 | once a division by zero has raised, later versions do not change the error |
| Performance.PerformanceTracker.TrackPrediction | tracking/performance_tracker.py:27-53 | an unknown version records nothing; otherwise exactly the three samples are appended |
| Performance.PerformanceTracker.RecordPrediction | tracking/performance_tracker.py:44-51 | the latency, tokens and success samples are appended, in that order |
| Performance.PerformanceTracker.ScoreVersions | tracking/performance_tracker.py:166-174 | the loop's result is `Candidates` of the names |
| Performance.PerformanceTracker.GetVersionRanking | tracking/performance_tracker.py:153-179 | raises exactly when the scoring loop raises, which happens on a version with requests and a rounded average latency of 0, and with the same error; otherwise it returns the scored versions, permuted into descending score order, each with at least one request |
| Alerting.AvgRecentDrawsNewest | tracking/alerting.py:191-210 | `_get_avg_metric` averages an `ORDER BY timestamp DESC LIMIT` answer |
| Alerting.AvgRecent | tracking/alerting.py:191-210 | `_get_avg_metric` is the average of the series' `limit` newest samples: 0 for none, otherwise within their range with `count * avg == sum` |
| Alerting.AboveAverageHasWitness | tracking/alerting.py:45-47 | an average above the threshold means some recent sample exceeds it; with no samples it means the threshold is negative |
| Alerting.ErrorRateBounds | tracking/alerting.py:212-230 | with 0/1 samples the error rate lies in [0, 1] |
| Alerting.ErrorRate | tracking/alerting.py:212-230 | `_get_error_rate` is 0 with no success sample, and otherwise the rate times the count is the number of failures |
| Alerting.ErrorRateComplementsSuccessRate | tracking/alerting.py:228-230 | the error rate is one minus the tracker's success rate over 100 |
| Alerting.DegradedMeaning | tracking/alerting.py:114-117 | a degradation alert fires iff the previous latency is positive and the current one exceeds it times (1 + threshold) |
| Alerting.JoinAlertRows | tracking/alerting.py:146-149 | the alert join keeps every alert and carries its version and model name |
| Alerting.JoinAlerts | tracking/alerting.py:146-149 | the joined alerts are ascending in timestamp |
| Alerting.GetAlerts | tracking/alerting.py:129-173 | `get_alerts` is an `ORDER BY timestamp DESC LIMIT` answer under the filters that were given |
| Alerting.ListedAlertsMatch | tracking/alerting.py:154-164 | every listed alert satisfies every filter that was given |
| Alerting.ListedAlertsRecorded | tracking/alerting.py:145-149 | every listed alert is a recorded alert |
| Alerting.AlertingSystem.CheckLatencyThreshold | tracking/alerting.py:27-57 | fires iff the version is known and the average of its 10 newest latencies exceeds the threshold; a firing appends one `latency_high` warning and nothing else |
| Alerting.AlertingSystem.CheckErrorRateThreshold | tracking/alerting.py:59-89 | fires iff the version is known and its error rate exceeds the threshold; a firing appends one critical `error_rate_high` alert |
| Alerting.AlertingSystem.CheckPerformanceDegradation | tracking/alerting.py:91-127 | fires iff both versions are known and the current version is degraded against the previous one; a firing appends one warning on the current version |
| Health.Predictor.Predict | deployment/health_checker.py:36 | each call serves the next scripted answer |
| Health.Raised | deployment/health_checker.py:89-96 | the error count is at most the number of calls, and 0 iff every call returned |
| Health.HealthChecker.CheckAvailability | deployment/health_checker.py:21-49 | one call; true iff it returned within the timeout |
| Health.HealthChecker.CheckResponseTime | deployment/health_checker.py:51-75 | one call; true iff it returned a latency (0 when absent) within the threshold |
| Health.HealthChecker.CheckErrorRate | deployment/health_checker.py:77-105 | exactly `num_requests` calls, none when negative; zero requests divide by zero; otherwise true iff at most `max_errors` raised |
| Health.HealthChecker.ComprehensiveCheck | deployment/health_checker.py:107-131 | seven calls; each field has its probe's meaning, and overall is their conjunction |
| Health.OneRaiseTolerated | deployment/health_checker.py:100 | one raise among the five probes is tolerated |
| Health.TwoRaisesFail | deployment/health_checker.py:100 | two raises among the five probes fail the check |
| Health.RaisedOnly | deployment/health_checker.py:89-96 | a single raising call in the window is counted once |
| Loader.CacheKey | models/model_loader.py:34 | the key is the name, a colon, then the version |
| Loader.CacheKeyInjective | models/model_loader.py:34 | for names without a colon, the key determines the pair |
| Loader.CacheKeysCanCollide | models/model_loader.py:34-39 | a name with a colon can share a key with a `gemini` key |
| Loader.ModelLoader.LoadModel | models/model_loader.py:22-51 | a cached key returns its instance unchanged; `gemini` builds and caches a fresh instance; any other family raises with the cache unchanged |
| Loader.ModelLoader.UnloadModel | models/model_loader.py:53-65 | the key is gone, every other entry stays, and an absent key changes nothing |
| Loader.ModelLoader.ListLoadedModels | models/model_loader.py:67-74 | every cached key, each once |
| Loader.ModelLoader.ClearCache | models/model_loader.py:76-78 | the cache is empty |
| Endpoint.NewDeploymentFound | api/app.py:175-182 | the deployment `deploy` just recorded is what `get_deployment` finds under the returned id |
| Endpoint.SnapshotNewDeployment | api/app.py:182 | the snapshot of the new deployment gets the next snapshot id and is appended after the earlier snapshots, capturing that deployment's id, version id, version, model name, strategy and first-row traffic reading |
| Endpoint.DeployModel | api/app.py:166-195 | succeeds iff the strategy is known and the version resolves, with `deploy`'s two errors in that order; a failure changes no table, clock or counter; a success appends one deployment with the plan's outcome, the plan's traffic writes and one snapshot of that deployment after the earlier ones, and returns both ids |

## Left out

- Logging, `time.sleep`, the wall clock around `predict`, SQLite connections and commits, and the Flask HTTP plumbing other than the deploy-then-snapshot composition are not modelled. The clock is the `Db.clock` field, and the health checker's elapsed time comes in the scripted answer.
- Floating point is not modelled. Values are exact reals, and Python's `round` is a parameter.
- Concurrent requests against the database are not modelled. Every operation runs to completion on its own.
- `Alerting.GetAlerts`: the alert `message` column is not modelled, although `get_alerts` returns it with `a.*` and `/api/alerts` passes it on. The messages are f-strings over formatted floats, which the exact-real model cannot render. `Storage.AlertRow` and `Storage.Db.InsertAlert` carry every other column. Log texts are not modelled either.
- `Versions.ParseVersion`: only the final-release part of PEP 440 is modelled (`N(.N)*`, leading zeros allowed). Epochs, pre-releases, post-releases, dev releases, local versions, a leading `v` (`v1.0`), surrounding whitespace (` 1.0 `) and upper-case letters are outside the grammar. Such a text is rejected here, although `packaging` accepts it.
- The traffic table's own `id` and `updated_at` columns are never read and are left out. The `deployment_id` the strategies receive is unused there too.
- `Traffic.TrafficOf` assumes SQLite's scan without `ORDER BY` follows insertion order, as it does for a rowid table without an index on `version_id`.
- `Metadata.VersionsByTag` and `Metadata.MetadataStore.GetVersionsByTag` answer in insertion order. The source's `versions JOIN models` has no `ORDER BY`, and SQLite may walk the `UNIQUE(model_id, version)` index instead, so the source does not promise any order. Only the membership statements (`Metadata.VersionsByTagMembers`, the method's second `ensures`) are order-free.
- `Performance.AllVersions` lists versions in insertion order, for the same reason as `Metadata.VersionsByTag`; only `Performance.AllVersionsMembers` is order-free. `Performance.PerformanceTracker.GetVersionRanking` inherits that order. Under another scan order the ranking is a different arrangement of the same entries, and when several versions have a zero rounded latency the source may name a different one in its `ZeroDivisionError`.
- `Query.IsOrderByDescLimit` leaves the order of rows with equal timestamps open. The model's functions answer one admissible order, newest-inserted first.
- Metadata JSON is held as decoded records, so `json.dumps`/`json.loads` is the identity. List items that are not strings never match a tag.
- `Metadata.TagsOf` reads a `tags` value that is not a list as `[]`, so no tag matches it, `add_tag` replaces it with a one-item list and `remove_tag` leaves it alone. The source applies Python's `in` to the value itself: a substring test on a string, a key test on an object, a `TypeError` on a number. When that test lets `add_tag` or `remove_tag` go on, `.append` or `.remove` then raises `AttributeError`. None of these raising paths is modelled.
- `Rollback.RollbackManager.AutoRollbackOnError`: the source's `_get_error_rate` returns the constant 0.01 for every version (`Rollback.StubErrorRate`), and the model keeps that constant.
- `Collector.GetRecentMetrics` returns the metric rows rather than the `{metric_value, timestamp}` dictionaries.
- `Performance.PerformanceTracker.RecordPrediction`: the three `_track_metric` inserts are modelled as one append of three rows, stamped at the same instant.
- `Loader.ModelLoader.ListLoadedModels` does not state the key order (Python's insertion order). It states only that each key appears exactly once.
- `Performance.SortByScore` does not state stability. The insertion sort keeps equal scores in input order, but no contract says so.
- The predictor's `prompt` and `max_tokens` arguments do not influence the scripted answers and are dropped.
- `Loader.GeminiModel` holds only its version. The Gemini client's internals are not part of this model. Construction is assumed to succeed: the source raises `ValueError` when `GEMINI_API_KEY` is unset, and then `load_model("gemini", v)` raises and caches nothing, a path `Loader.ModelLoader.LoadModel` does not model.
- `Health.HealthChecker.constructor` has no state to establish, so it carries no contract.
- The source's default arguments are not modelled; every argument is explicit. The defaults are `strategy='direct'` (deployment/deployment_manager.py:34), `error_threshold=0.1` (rollback/rollback_manager.py:109), the alert thresholds 2.0, 0.1 and 0.2 and the listing's `limit=10` (tracking/alerting.py:27, 59, 91, 129), `part='patch'` (registry/version_manager.py:108), `success=True` (tracking/performance_tracker.py:27) and `limit=100` (tracking/metrics_collector.py:56).
