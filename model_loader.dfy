/**
 * The model loader: a cache of model instances keyed by `name:version`.
 * Only the `gemini` family can be constructed; its instances are opaque.
 */
module Loader {
  import opened Wrappers

  /** An instance of the Gemini client for one version; nothing of it is read here. */
  class GeminiModel {
    const version: string

    constructor (version: string)
      ensures this.version == version
    {
      this.version := version;
    }
  }

  /** What `load_model` raises for a family it cannot construct. */
  datatype LoadError = UnknownModel(modelName: string)

  /** `f"{model_name}:{version}"`. */
  function CacheKey(modelName: string, version: string): (k: string)
    ensures |k| == |modelName| + 1 + |version|
    ensures k[..|modelName|] == modelName && k[|modelName|] == ':' && k[|modelName| + 1..] == version
  {
    modelName + ":" + version
  }

  /** For names without a colon the key determines the pair. */
  lemma CacheKeyInjective(name1: string, version1: string, name2: string, version2: string)
    requires ':' !in name1 && ':' !in name2
    requires CacheKey(name1, version1) == CacheKey(name2, version2)
    ensures name1 == name2 && version1 == version2
  {

  }

  /**
   * A name containing a colon can share its key with a `gemini` key, so a
   * cached Gemini instance is returned for a family `load_model` would
   * otherwise refuse.
   */
  lemma CacheKeysCanCollide()
    ensures CacheKey("gemini:1", "0") == CacheKey("gemini", "1:0")
  {
  }

  class ModelLoader {
    var loadedModels: map<string, GeminiModel>

    constructor ()
      ensures loadedModels == map[]
    {
      loadedModels := map[];
    }

    /**
     * `load_model`: a cached key returns its instance and changes nothing;
     * otherwise `gemini` constructs a fresh instance cached under the key,
     * and any other family raises with the cache unchanged.
     */
    method LoadModel(modelName: string, version: string) returns (r: Result<GeminiModel, LoadError>)
      modifies this`loadedModels
      ensures CacheKey(modelName, version) in old(loadedModels) ==>
        r == Ok(old(loadedModels)[CacheKey(modelName, version)]) && loadedModels == old(loadedModels)
      ensures CacheKey(modelName, version) !in old(loadedModels) && modelName == "gemini" ==>
        && r.Ok? && fresh(r.value) && r.value.version == version
        && loadedModels == old(loadedModels)[CacheKey(modelName, version) := r.value]
      ensures CacheKey(modelName, version) !in old(loadedModels) && modelName != "gemini" ==>
        r == Err(UnknownModel(modelName)) && loadedModels == old(loadedModels)
    {
      var cacheKey := CacheKey(modelName, version);
      if cacheKey in loadedModels {
        return Ok(loadedModels[cacheKey]);
      }
      if modelName != "gemini" {
        return Err(UnknownModel(modelName));
      }
      var model := new GeminiModel(version);
      loadedModels := loadedModels[cacheKey := model];
      return Ok(model);
    }

    /** `unload_model`: the key is gone and every other entry stays; an absent key changes nothing. */
    method UnloadModel(modelName: string, version: string)
      modifies this`loadedModels
      ensures CacheKey(modelName, version) !in loadedModels
      ensures forall k :: k != CacheKey(modelName, version) ==>
        (k in loadedModels <==> k in old(loadedModels)) && (k in loadedModels ==> loadedModels[k] == old(loadedModels)[k])
      ensures CacheKey(modelName, version) !in old(loadedModels) ==> loadedModels == old(loadedModels)
    {
      var cacheKey := CacheKey(modelName, version);
      if cacheKey in loadedModels {
        loadedModels := loadedModels - {cacheKey};
      }
    }

    /** `list_loaded_models`: every cached key, each once. */
    method ListLoadedModels() returns (keys: seq<string>)
      ensures forall k :: k in keys <==> k in loadedModels
      ensures forall i, j :: 0 <= i < j < |keys| ==> keys[i] != keys[j]
    {
      keys := [];
      var remaining := loadedModels.Keys;
      while remaining != {}
        invariant remaining <= loadedModels.Keys
        invariant forall k :: k in keys <==> k in loadedModels && k !in remaining
        invariant forall i, j :: 0 <= i < j < |keys| ==> keys[i] != keys[j]
        decreases |remaining|
      {
        var k :| k in remaining;
        keys := keys + [k];
        remaining := remaining - {k};
      }
    }

    /** `clear_cache`. */
    method ClearCache()
      modifies this`loadedModels
      ensures loadedModels == map[]
    {
      loadedModels := map[];
    }
  }
}
