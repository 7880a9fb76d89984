/**
 * The metadata store: the JSON object held in `versions.metadata`, read,
 * replaced, merged into, and used to hold a list of tags. Every write is
 * the same `UPDATE versions SET metadata = ?` on the row that the model
 * name and version string resolve to; when they resolve to nothing the
 * UPDATE matches no row and nothing changes.
 */
module Metadata {
  import opened Wrappers
  import opened Query
  import opened Storage

  /** `metadata.get('tags', [])` when the stored value is a list. */
  function TagsOf(m: Metadata): seq<MetaValue> {
    if "tags" in m && m["tags"].List? then m["tags"].items else []
  }

  /** `get_metadata or {}`: a missing row and a NULL column both read as the empty object. */
  function OrEmpty(current: Option<Metadata>): Metadata {
    if current.Some? then current.value else map[]
  }

  /** `tags.append(tag); metadata['tags'] = tags`. */
  function WithTag(m: Metadata, tag: string): (r: Metadata)
    ensures TagsOf(r) == TagsOf(m) + [Str(tag)]
    ensures r.Keys == m.Keys + {"tags"}
    ensures forall key :: key in m && key != "tags" ==> r[key] == m[key]
  {
    m["tags" := List(TagsOf(m) + [Str(tag)])]
  }

  /** `list.remove`: the first occurrence goes, everything else keeps its order. */
  function RemoveFirst<T(==)>(s: seq<T>, x: T): (r: seq<T>)
    ensures x in s ==> |r| == |s| - 1 && multiset(r) == multiset(s) - multiset{x}
    ensures x !in s ==> r == s
  {
    if s == [] then []
    else
      assert s == [s[0]] + s[1..];
      if s[0] == x then s[1..]
      else [s[0]] + RemoveFirst(s[1..], x)
  }

  /** `list.remove` cuts the list at the first occurrence and keeps both sides in order. */
  lemma {:induction false} RemoveFirstSplits<T>(s: seq<T>, x: T, i: nat)
    requires i < |s| && s[i] == x && x !in s[..i]
    ensures RemoveFirst(s, x) == s[..i] + s[i + 1..]
  {
    if i > 0 {
      assert s[0] != x by { assert s[0] == s[..i][0]; }
      assert s[1..][..i - 1] == s[1..i];
      RemoveFirstSplits(s[1..], x, i - 1);
      assert s[..i] == [s[0]] + s[1..i];
    }
  }

  /** A value appended to a list that did not hold it is the occurrence `list.remove` takes away. */
  lemma {:induction false} RemoveFirstAppended<T>(s: seq<T>, x: T)
    requires x !in s
    ensures RemoveFirst(s + [x], x) == s
  {
    if s != [] {
      assert (s + [x])[1..] == s[1..] + [x];
      RemoveFirstAppended(s[1..], x);
    }
  }

  /** `tags.remove(tag); metadata['tags'] = tags`. */
  function WithoutTag(m: Metadata, tag: string): (r: Metadata)
    ensures Str(tag) in TagsOf(m) ==>
      multiset(TagsOf(r)) == multiset(TagsOf(m)) - multiset{Str(tag)}
    ensures forall key :: key in m && key != "tags" ==> key in r && r[key] == m[key]
  {
    m["tags" := List(RemoveFirst(TagsOf(m), Str(tag)))]
  }

  /** `current.update(updates)` on `get_metadata(...) or {}`: the updates win, every other key stays. */
  function Merged(current: Option<Metadata>, updates: Metadata): (r: Metadata)
    ensures r.Keys == OrEmpty(current).Keys + updates.Keys
    ensures forall key :: key in updates ==> r[key] == updates[key]
    ensures forall key :: key in OrEmpty(current) && key !in updates ==> r[key] == OrEmpty(current)[key]
  {
    OrEmpty(current) + updates
  }

  /**
   * `get_metadata`: the decoded `metadata` column of the version that the
   * name and version string resolve to; None when nothing resolves or the
   * column is NULL.
   */
  function GetMetadata(models: seq<ModelRow>, versions: seq<VersionRow>, modelName: string, version: string)
    : (r: Option<Metadata>)
    requires CatalogOk(models, versions)
    ensures forall k :: IsVersionOf(models, versions, k, modelName, version) ==> r == versions[k].metadata
    ensures (forall k :: !IsVersionOf(models, versions, k, modelName, version)) ==> r.None?
  {
    match Resolve(models, versions, modelName, version)
    case None => None
    case Some(vid) => versions[vid - 1].metadata
  }

  /**
   * The versions table after `store_metadata`'s UPDATE: the resolved row's
   * metadata replaced, every other row as it was, and the new object what
   * `get_metadata` then reads.
   */
  function SetMetadata(models: seq<ModelRow>, versions: seq<VersionRow>, modelName: string, version: string,
                       metadata: Metadata): (r: seq<VersionRow>)
    requires CatalogOk(models, versions)
    ensures SameKeys(versions, r) && CatalogOk(models, r)
    ensures GetMetadata(models, r, modelName, version) ==
      if Resolve(models, versions, modelName, version).Some? then Some(metadata) else None
    ensures forall k :: 0 <= k < |versions| && !IsVersionOf(models, versions, k, modelName, version) ==>
      r[k] == versions[k]
  {
    var vid := Resolve(models, versions, modelName, version);
    var r := if vid.None? then versions else versions[vid.value - 1 := versions[vid.value - 1].(metadata := Some(metadata))];
    assert SameKeys(versions, r);
    ResolveSameKeys(models, versions, r, modelName, version);
    r
  }

  /** The versions table after `add_tag`: unchanged when the tag is already there. */
  function AddedTag(models: seq<ModelRow>, versions: seq<VersionRow>, modelName: string, version: string, tag: string)
    : (r: seq<VersionRow>)
    requires CatalogOk(models, versions)
    ensures CatalogOk(models, r)
  {
    var current := OrEmpty(GetMetadata(models, versions, modelName, version));
    if Str(tag) in TagsOf(current) then versions
    else SetMetadata(models, versions, modelName, version, WithTag(current, tag))
  }

  /** The versions table after `remove_tag`: unchanged when the tag is not there. */
  function RemovedTag(models: seq<ModelRow>, versions: seq<VersionRow>, modelName: string, version: string, tag: string)
    : (r: seq<VersionRow>)
    requires CatalogOk(models, versions)
    ensures CatalogOk(models, r)
  {
    var current := OrEmpty(GetMetadata(models, versions, modelName, version));
    if Str(tag) !in TagsOf(current) then versions
    else SetMetadata(models, versions, modelName, version, WithoutTag(current, tag))
  }

  /** After `add_tag` on a registered version the tag is listed, and a second `add_tag` changes nothing. */
  lemma AddTagSeen(models: seq<ModelRow>, versions: seq<VersionRow>, modelName: string, version: string, tag: string)
    requires CatalogOk(models, versions) && Resolve(models, versions, modelName, version).Some?
    ensures var after := AddedTag(models, versions, modelName, version, tag);
      && GetMetadata(models, after, modelName, version).Some?
      && Str(tag) in TagsOf(GetMetadata(models, after, modelName, version).value)
      && AddedTag(models, after, modelName, version, tag) == after
  {
    var current := GetMetadata(models, versions, modelName, version);
    if Str(tag) in TagsOf(OrEmpty(current)) {
      assert current.Some?;
    }
  }

  /**
   * `remove_tag` undoes an `add_tag` of a tag the version did not carry:
   * the tag list reads as before.
   */
  lemma RemoveUndoesAdd(models: seq<ModelRow>, versions: seq<VersionRow>, modelName: string, version: string, tag: string)
    requires CatalogOk(models, versions) && Resolve(models, versions, modelName, version).Some?
    requires Str(tag) !in TagsOf(OrEmpty(GetMetadata(models, versions, modelName, version)))
    ensures var added := AddedTag(models, versions, modelName, version, tag);
      var removed := RemovedTag(models, added, modelName, version, tag);
      && GetMetadata(models, removed, modelName, version).Some?
      && TagsOf(GetMetadata(models, removed, modelName, version).value)
         == TagsOf(OrEmpty(GetMetadata(models, versions, modelName, version)))
  {
    var tags := TagsOf(OrEmpty(GetMetadata(models, versions, modelName, version)));
    RemoveFirstAppended(tags, Str(tag));
  }

  /** `if row['metadata']` and `tag in metadata.get('tags', [])`, for a version of the named model. */
  function TaggedWith(models: seq<ModelRow>, modelName: string, tag: string): VersionRow -> bool {
    (v: VersionRow) =>
      && 1 <= v.modelId <= |models| && OwnerName(models, v) == modelName
      && v.metadata.Some? && Str(tag) in TagsOf(v.metadata.value)
  }

  /** `get_versions_by_tag`'s answer: the version strings of the model's tagged rows, in scan order. */
  function VersionsByTag(models: seq<ModelRow>, versions: seq<VersionRow>, modelName: string, tag: string)
    : (r: seq<string>)
    ensures |r| <= |versions|
  {
    if versions == [] then []
    else
      var init, last := versions[..|versions| - 1], versions[|versions| - 1];
      VersionsByTag(models, init, modelName, tag) + (if TaggedWith(models, modelName, tag)(last) then [last.version] else [])
  }

  /** A version string is listed exactly when some row of that model with that version carries the tag. */
  lemma {:induction false} VersionsByTagMembers(models: seq<ModelRow>, versions: seq<VersionRow>, modelName: string,
                                                tag: string, version: string)
    ensures version in VersionsByTag(models, versions, modelName, tag) <==>
      exists k :: IsVersionOf(models, versions, k, modelName, version) && TaggedWith(models, modelName, tag)(versions[k])
    decreases |versions|
  {
    if versions != [] {
      var init, last := versions[..|versions| - 1], versions[|versions| - 1];
      VersionsByTagMembers(models, init, modelName, tag, version);
      if version in VersionsByTag(models, versions, modelName, tag) {
        if version in VersionsByTag(models, init, modelName, tag) {
          var k :| IsVersionOf(models, init, k, modelName, version) && TaggedWith(models, modelName, tag)(init[k]);
          assert init[k] == versions[k];
          assert IsVersionOf(models, versions, k, modelName, version);
        } else {
          assert IsVersionOf(models, versions, |versions| - 1, modelName, version);
        }
      }
      if k :| IsVersionOf(models, versions, k, modelName, version) && TaggedWith(models, modelName, tag)(versions[k]) {
        if k < |init| {
          assert init[k] == versions[k];
          assert IsVersionOf(models, init, k, modelName, version);
        }
      }
    }
  }

  /** After `add_tag` on a registered version, `get_versions_by_tag` lists that version. */
  lemma TaggedVersionListed(models: seq<ModelRow>, versions: seq<VersionRow>, modelName: string, version: string,
                            tag: string)
    requires CatalogOk(models, versions) && Resolve(models, versions, modelName, version).Some?
    ensures version in VersionsByTag(models, AddedTag(models, versions, modelName, version, tag), modelName, tag)
  {
    var after := AddedTag(models, versions, modelName, version, tag);
    AddTagSeen(models, versions, modelName, version, tag);
    var vid := Resolve(models, after, modelName, version);
    ResolveSameKeys(models, versions, after, modelName, version);
    assert IsVersionOf(models, after, vid.value - 1, modelName, version);
    VersionsByTagMembers(models, after, modelName, tag, version);
  }

  class MetadataStore {
    const db: Db

    constructor (db: Db)
      ensures this.db == db
    {
      this.db := db;
    }

    /** `store_metadata`: the UPDATE on the resolved row; the object is stored as given, `{}` included. */
    method StoreMetadata(modelName: string, version: string, metadata: Metadata)
      requires db.Valid()
      modifies db`versions
      ensures db.Valid()
      ensures db.versions == SetMetadata(db.models, old(db.versions), modelName, version, metadata)
    {
      var vid := Resolve(db.models, db.versions, modelName, version);
      if vid.Some? {
        var k := vid.value - 1;
        db.UpdateVersion(k, db.versions[k].(metadata := Some(metadata)));
      }
    }

    /** `update_metadata`: the current object (or `{}`) merged with the updates, stored back. */
    method UpdateMetadata(modelName: string, version: string, updates: Metadata)
      requires db.Valid()
      modifies db`versions
      ensures db.Valid()
      ensures db.versions == SetMetadata(db.models, old(db.versions), modelName, version,
                                         Merged(old(GetMetadata(db.models, db.versions, modelName, version)), updates))
    {
      var current := GetMetadata(db.models, db.versions, modelName, version);
      StoreMetadata(modelName, version, Merged(current, updates));
    }

    /** `add_tag`: the tag appended to the list unless it is already there. */
    method AddTag(modelName: string, version: string, tag: string)
      requires db.Valid()
      modifies db`versions
      ensures db.Valid()
      ensures db.versions == AddedTag(db.models, old(db.versions), modelName, version, tag)
    {
      var metadata := OrEmpty(GetMetadata(db.models, db.versions, modelName, version));
      var tags := TagsOf(metadata);
      if Str(tag) !in tags {
        StoreMetadata(modelName, version, WithTag(metadata, tag));
      }
    }

    /** `remove_tag`: the first occurrence of the tag removed, if there is one. */
    method RemoveTag(modelName: string, version: string, tag: string)
      requires db.Valid()
      modifies db`versions
      ensures db.Valid()
      ensures db.versions == RemovedTag(db.models, old(db.versions), modelName, version, tag)
    {
      var metadata := OrEmpty(GetMetadata(db.models, db.versions, modelName, version));
      var tags := TagsOf(metadata);
      if Str(tag) in tags {
        StoreMetadata(modelName, version, WithoutTag(metadata, tag));
      }
    }

    /** `get_versions_by_tag`: the loop over the model's rows, keeping those whose tags hold the tag. */
    method GetVersionsByTag(modelName: string, tag: string) returns (result: seq<string>)
      ensures result == VersionsByTag(db.models, db.versions, modelName, tag)
      ensures forall version :: version in result <==>
        exists k :: IsVersionOf(db.models, db.versions, k, modelName, version)
                    && TaggedWith(db.models, modelName, tag)(db.versions[k])
    {
      result := [];
      var i := 0;
      while i < |db.versions|
        invariant 0 <= i <= |db.versions|
        invariant result == VersionsByTag(db.models, db.versions[..i], modelName, tag)
      {
        var row := db.versions[i];
        assert db.versions[..i + 1][..i] == db.versions[..i];
        if 1 <= row.modelId <= |db.models| && OwnerName(db.models, row) == modelName && row.metadata.Some? {
          if Str(tag) in TagsOf(row.metadata.value) {
            result := result + [row.version];
          }
        }
        i := i + 1;
      }
      assert db.versions[..i] == db.versions;
      forall version ensures version in result <==>
        exists k :: IsVersionOf(db.models, db.versions, k, modelName, version)
                    && TaggedWith(db.models, modelName, tag)(db.versions[k])
      {
        VersionsByTagMembers(db.models, db.versions, modelName, tag, version);
      }
    }
  }
}
