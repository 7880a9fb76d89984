/**
 * The model registry: models with unique names, and versions unique per
 * model, registered, looked up, listed and re-labelled.
 */
module Registry {
  import opened Wrappers
  import opened Query
  import opened Storage

  /** What `register_version` raises: `ValueError` for an unknown model, the re-raised `IntegrityError` for a taken version. */
  datatype RegisterError = ModelNotFound(modelName: string) | DuplicateVersion(modelName: string, version: string)

  /** `get_model` (`SELECT * FROM models WHERE name = ?`): the model with that name, or None. */
  function GetModel(models: seq<ModelRow>, name: string): (r: Option<ModelRow>)
    ensures r.None? <==> forall i :: 0 <= i < |models| ==> models[i].name != name
    ensures r.Some? ==> r.value in models && r.value.name == name
  {
    match FirstIndex(models, (m: ModelRow) => m.name == name)
    case None => None
    case Some(i) => Some(models[i])
  }

  /** Names are unique, so the model `get_model` finds sits at position `id - 1`. */
  lemma GetModelPosition(models: seq<ModelRow>, versions: seq<VersionRow>, name: string)
    requires CatalogOk(models, versions) && GetModel(models, name).Some?
    ensures var m := GetModel(models, name).value;
      1 <= m.id <= |models| && models[m.id - 1] == m
      && forall i :: 0 <= i < |models| && models[i].name == name ==> i == m.id - 1
  {
    var m := GetModel(models, name).value;
    var i :| 0 <= i < |models| && models[i] == m;
    assert m.id == i + 1;
  }

  /** `get_version`: the version row of that model with that version string, or None. */
  function GetVersion(models: seq<ModelRow>, versions: seq<VersionRow>, modelName: string, version: string)
    : (r: Option<VersionRow>)
    requires CatalogOk(models, versions)
    ensures r.None? <==> forall k :: !IsVersionOf(models, versions, k, modelName, version)
    ensures r.Some? ==>
      r.value in versions && r.value.version == version && 1 <= r.value.modelId <= |models| && OwnerName(models, r.value) == modelName
  {
    match Resolve(models, versions, modelName, version)
    case None => None
    case Some(vid) => Some(versions[vid - 1])
  }

  /** `metadata_json = json.dumps(metadata) if metadata else None`: no metadata and `{}` are both stored as NULL. */
  function StoredMetadata(metadata: Option<Metadata>): (r: Option<Metadata>)
    ensures r.None? <==> metadata.None? || metadata.value == map[]
    ensures r.Some? ==> r == metadata
  {
    if metadata.Some? && metadata.value != map[] then metadata else None
  }

  /** `ORDER BY name` under SQLite's BINARY collation: code point by code point, a prefix first. */
  predicate NameLe(a: string, b: string) {
    a == [] || (b != [] && (a[0] < b[0] || (a[0] == b[0] && NameLe(a[1..], b[1..]))))
  }

  lemma {:induction false} NameLeTotal(a: string, b: string)
    ensures NameLe(a, b) || NameLe(b, a)
  {
    if a != [] && b != [] && a[0] == b[0] {
      NameLeTotal(a[1..], b[1..]);
    }
  }

  lemma {:induction false} NameLeTransitive(a: string, b: string, c: string)
    requires NameLe(a, b) && NameLe(b, c)
    ensures NameLe(a, c)
  {
    if a != [] && a[0] == b[0] && b[0] == c[0] {
      NameLeTransitive(a[1..], b[1..], c[1..]);
    }
  }

  ghost predicate SortedByName(s: seq<ModelRow>) {
    forall i, j :: 0 <= i < j < |s| ==> NameLe(s[i].name, s[j].name)
  }

  /** A row that no row of a sorted list precedes can go in front of it. */
  lemma ConsSorted(x: ModelRow, t: seq<ModelRow>)
    requires SortedByName(t)
    requires forall y :: y in multiset(t) ==> NameLe(x.name, y.name)
    ensures SortedByName([x] + t)
  {
    forall j | 0 <= j < |t| ensures NameLe(x.name, t[j].name) {
      assert t[j] in multiset(t);
    }
  }

  /** The head of a sorted list precedes all the rest, and any row it precedes. */
  lemma HeadFirst(s: seq<ModelRow>, m: ModelRow)
    requires SortedByName(s) && s != [] && NameLe(s[0].name, m.name)
    ensures forall y :: y in multiset(s[1..]) + multiset{m} ==> NameLe(s[0].name, y.name)
  {
    forall y | y in multiset(s[1..]) + multiset{m} ensures NameLe(s[0].name, y.name) {
      if y != m {
        var j :| 0 <= j < |s[1..]| && s[1..][j] == y;
        assert s[j + 1] == y;
      }
    }
  }

  /** One step of sorting by name: `m` placed before the first row it does not follow. */
  function InsertByName(m: ModelRow, s: seq<ModelRow>): (r: seq<ModelRow>)
    requires SortedByName(s)
    ensures SortedByName(r) && multiset(r) == multiset(s) + multiset{m}
  {
    if s == [] then [m]
    else if NameLe(m.name, s[0].name) then
      assert forall y :: y in multiset(s) ==> NameLe(m.name, y.name) by {
        forall y | y in multiset(s) ensures NameLe(m.name, y.name) {
          var j :| 0 <= j < |s| && s[j] == y;
          if j > 0 { NameLeTransitive(m.name, s[0].name, s[j].name); }
        }
      }
      ConsSorted(m, s);
      [m] + s
    else
      var rest := InsertByName(m, s[1..]);
      NameLeTotal(m.name, s[0].name);
      HeadFirst(s, m);
      ConsSorted(s[0], rest);
      assert s == [s[0]] + s[1..];
      [s[0]] + rest
  }

  /** `list_models`: every model, ordered by name. */
  function ListModels(models: seq<ModelRow>): (r: seq<ModelRow>)
    ensures SortedByName(r) && multiset(r) == multiset(models)
  {
    if models == [] then []
    else
      var r := InsertByName(models[|models| - 1], ListModels(models[..|models| - 1]));
      assert models == models[..|models| - 1] + [models[|models| - 1]];
      r
  }

  /** `JOIN models m ON v.model_id = m.id WHERE m.name = ?`, as a row filter. */
  function OwnedBy(models: seq<ModelRow>, modelName: string): VersionRow -> bool {
    (v: VersionRow) => 1 <= v.modelId <= |models| && OwnerName(models, v) == modelName
  }

  /** `list_versions`: that model's versions, newest-created first; an unknown model has none. */
  function ListVersions(db: Db, modelName: string): (r: seq<VersionRow>)
    reads db`models, db`versions, db`deployments, db`snapshots, db`nextSnapshotId, db`metrics, db`alerts, db`clock
    requires db.Valid()
    ensures IsOrderByDescLimit(r, db.versions, OwnedBy(db.models, modelName), VersionCreatedAt, -1)
    ensures forall k :: 0 <= k < |r| ==> r[k] in db.versions && OwnedBy(db.models, modelName)(r[k])
  {
    StampedAscending(db.versions, VersionCreatedAt, db.clock);
    var r := NewestFirst(db.versions, OwnedBy(db.models, modelName), -1);
    NewestFirstIsOrderByDesc(db.versions, OwnedBy(db.models, modelName), VersionCreatedAt, -1);
    OrderByDescDrawsMatches(r, db.versions, OwnedBy(db.models, modelName), VersionCreatedAt, -1);
    r
  }

  /** The version a successful `register_version` appends is what `get_version` then answers. */
  lemma RegisteredVersionFound(models: seq<ModelRow>, versions: seq<VersionRow>, row: VersionRow,
                               modelName: string)
    requires CatalogOk(models, versions + [row]) && 1 <= row.modelId <= |models|
    requires OwnerName(models, row) == modelName
    ensures GetVersion(models, versions + [row], modelName, row.version) == Some(row)
  {
    assert IsVersionOf(models, versions + [row], |versions|, modelName, row.version);
  }

  /** The `UNIQUE(model_id, version)` test for a model found by name is the same test as the name lookup. */
  lemma DuplicateIffResolves(models: seq<ModelRow>, versions: seq<VersionRow>, modelName: string, version: string)
    requires CatalogOk(models, versions) && GetModel(models, modelName).Some?
    ensures var mid := GetModel(models, modelName).value.id;
      (exists k :: 0 <= k < |versions| && versions[k].modelId == mid && versions[k].version == version)
      <==> Resolve(models, versions, modelName, version).Some?
  {
    GetModelPosition(models, versions, modelName);
    var mid := GetModel(models, modelName).value.id;
    if k :| 0 <= k < |versions| && versions[k].modelId == mid && versions[k].version == version {
      assert IsVersionOf(models, versions, k, modelName, version);
    }
    var r := Resolve(models, versions, modelName, version);
    if r.Some? {
      assert IsVersionOf(models, versions, r.value - 1, modelName, version);
      assert versions[r.value - 1].modelId == mid;
    }
  }

  class ModelRegistry {
    const db: Db

    constructor (db: Db)
      ensures this.db == db
    {
      this.db := db;
    }

    /**
     * `register_model`: a new name gets the next id; a taken name makes the
     * INSERT fail on `UNIQUE` and the existing id is returned, nothing added.
     * Either way `get_model` then finds the returned id.
     */
    method RegisterModel(name: string, description: string) returns (id: nat)
      requires db.Valid()
      modifies db`models
      ensures db.Valid()
      ensures old(GetModel(db.models, name)).Some? ==>
        id == old(GetModel(db.models, name)).value.id && db.models == old(db.models)
      ensures old(GetModel(db.models, name)).None? ==>
        id == |old(db.models)| + 1 && db.models == old(db.models) + [ModelRow(id, name, description, db.clock)]
      ensures GetModel(db.models, name).Some? && GetModel(db.models, name).value.id == id
    {
      var existing := GetModel(db.models, name);
      if existing.Some? {
        return existing.value.id;
      }
      id := db.InsertModel(name, description);
      assert db.models[|db.models| - 1].name == name;
    }

    /**
     * `register_version`: an unknown model raises, a taken version
     * raises, and neither writes; otherwise the version is appended with
     * its metadata, falsy metadata stored as NULL.
     */
    method RegisterVersion(modelName: string, version: string, status: string, metadata: Option<Metadata>)
      returns (r: Result<nat, RegisterError>)
      requires db.Valid()
      modifies db`versions
      ensures db.Valid()
      ensures GetModel(db.models, modelName).None? ==>
        r == Err(ModelNotFound(modelName)) && db.versions == old(db.versions)
      ensures GetModel(db.models, modelName).Some? && old(Resolve(db.models, db.versions, modelName, version)).Some? ==>
        r == Err(DuplicateVersion(modelName, version)) && db.versions == old(db.versions)
      ensures GetModel(db.models, modelName).Some? && old(Resolve(db.models, db.versions, modelName, version)).None? ==>
        && r == Ok(|old(db.versions)| + 1)
        && db.versions == old(db.versions) +
             [VersionRow(r.value, GetModel(db.models, modelName).value.id, version, status, StoredMetadata(metadata), db.clock)]
    {
      var model := GetModel(db.models, modelName);
      if model.None? {
        return Err(ModelNotFound(modelName));
      }
      var mid := model.value.id;
      DuplicateIffResolves(db.models, db.versions, modelName, version);
      GetModelPosition(db.models, db.versions, modelName);
      var taken := FirstIndex(db.versions, (v: VersionRow) => v.modelId == mid && v.version == version);
      if taken.Some? {
        return Err(DuplicateVersion(modelName, version));
      }
      var id := db.InsertVersion(mid, version, status, StoredMetadata(metadata));
      r := Ok(id);
    }

    /** `update_version_status`: only the matching version's status changes; no match, no change. */
    method UpdateVersionStatus(modelName: string, version: string, status: string)
      requires db.Valid()
      modifies db`versions
      ensures db.Valid()
      ensures old(Resolve(db.models, db.versions, modelName, version)).None? ==> db.versions == old(db.versions)
      ensures old(Resolve(db.models, db.versions, modelName, version)).Some? ==>
        var k := old(Resolve(db.models, db.versions, modelName, version)).value - 1;
        db.versions == old(db.versions)[k := old(db.versions)[k].(status := status)]
    {
      var vid := Resolve(db.models, db.versions, modelName, version);
      if vid.Some? {
        var k := vid.value - 1;
        db.UpdateVersion(k, db.versions[k].(status := status));
      }
    }
  }

  /** After `update_version_status`, `get_version` reports the new status and nothing else changed. */
  lemma StatusUpdateSeen(models: seq<ModelRow>, versions: seq<VersionRow>, modelName: string, version: string,
                         status: string)
    requires CatalogOk(models, versions) && Resolve(models, versions, modelName, version).Some?
    ensures var k := Resolve(models, versions, modelName, version).value - 1;
      var versions' := versions[k := versions[k].(status := status)];
      && CatalogOk(models, versions')
      && GetVersion(models, versions', modelName, version) == Some(versions[k].(status := status))
  {
    var k := Resolve(models, versions, modelName, version).value - 1;
    var versions' := versions[k := versions[k].(status := status)];
    assert SameKeys(versions, versions');
    ResolveSameKeys(models, versions, versions', modelName, version);
  }
}
