/**
 * The `ModelManager` class of `models/manager.py`: the default model and
 * the list of model records it holds, and the operations that change them.
 *
 * The helpers it imports (`get_default_model`, `get_models`,
 * `set_default_model`, the Hugging Face update and the Ollama cache update)
 * are not part of this model: what they return is a parameter.
 */
module ModelManager {
  import opened Wrappers
  import opened Text

  /** A model record: a dictionary of strings. */
  type Record = map<string, string>

  const FallbackModel := "llama3"

  /**
   * `any(m['name'] == name for m in models)`: `Some` of the answer, or
   * `None` when a record without a `name` is reached before a match.
   */
  function AnyNamed(models: seq<Record>, name: string): Option<bool> {
    if models == [] then Some(false)
    else if "name" !in models[0] then None
    else if models[0]["name"] == name then Some(true)
    else AnyNamed(models[1..], name)
  }

  /** Every record has a `name`. */
  predicate AllNamed(models: seq<Record>) {
    forall i :: 0 <= i < |models| ==> "name" in models[i]
  }

  /**
   * A positive answer names a record that is in the list; when every
   * record has a name there is no error and the answer is exactly whether
   * some record carries the name.
   */
  lemma {:induction false} AnyNamedMeaning(models: seq<Record>, name: string)
    ensures AnyNamed(models, name).Some? && AnyNamed(models, name).value ==>
      exists i :: 0 <= i < |models| && "name" in models[i] && models[i]["name"] == name
    ensures AllNamed(models) ==>
      AnyNamed(models, name) == Some(exists i :: 0 <= i < |models| && models[i]["name"] == name)
  {
    if models != [] && "name" in models[0] && models[0]["name"] != name {
      AnyNamedMeaning(models[1..], name);
      if AnyNamed(models, name).Some? && AnyNamed(models, name).value {
        var i :| 0 <= i < |models[1..]| && "name" in models[1..][i] && models[1..][i]["name"] == name;
        assert models[i + 1] == models[1..][i];
      }
      if AllNamed(models) {
        assert AllNamed(models[1..]) by {
          forall i | 0 <= i < |models[1..]|
            ensures "name" in models[1..][i]
          {
            assert models[1..][i] == models[i + 1];
          }
        }
        if exists i :: 0 <= i < |models| && models[i]["name"] == name {
          var i :| 0 <= i < |models| && models[i]["name"] == name;
          assert i > 0;
          assert models[1..][i - 1] == models[i];
        }
        if exists i :: 0 <= i < |models[1..]| && models[1..][i]["name"] == name {
          var i :| 0 <= i < |models[1..]| && models[1..][i]["name"] == name;
          assert models[i + 1] == models[1..][i];
        }
      }
    }
  }

  /** What a call returns: a value, or an exception that escapes. */
  datatype Outcome<T> = Raised | Returned(value: T)

  /** The manager's state: the default model name and the model records. */
  class Manager {
    var defaultModel: string
    var models: seq<Record>

    /**
     * `ModelManager()`: `configured` is what `get_default_model()` returns,
     * `available` what `get_models()` returns.
     */
    constructor (configured: string, available: seq<Record>)
      ensures defaultModel == (if configured == "" then FallbackModel else configured)
      ensures models == available
    {
      defaultModel := if configured == "" then FallbackModel else configured;
      models := available;
    }

    /** `list_models()` */
    function ListModels(): (r: seq<Record>)
      reads this
      ensures r == models
    {
      models
    }

    /** `get_default_model_name()` */
    function GetDefaultModelName(): (r: string)
      reads this
      ensures r == defaultModel
    {
      defaultModel
    }

    /**
     * `set_default_model(name)`: only a name some record carries becomes the
     * default, and then the result is what persisting it (`persisted`)
     * returns. The records never change.
     */
    method SetDefaultModel(name: string, persisted: bool) returns (r: Outcome<bool>)
      modifies this
      ensures models == old(models)
      ensures AnyNamed(old(models), name).Some? && AnyNamed(old(models), name).value ==>
        defaultModel == name && r == Returned(persisted)
      ensures AnyNamed(old(models), name).Some? && !AnyNamed(old(models), name).value ==>
        defaultModel == old(defaultModel) && r == Returned(false)
      ensures AnyNamed(old(models), name).None? ==> defaultModel == old(defaultModel) && r == Raised
    {
      var found := AnyNamed(models, name);
      if found.None? {
        return Raised;
      }
      if found.value {
        defaultModel := name;
        return Returned(persisted);
      }
      return Returned(false);
    }

    /**
     * `update_models_from_ollama()`: the records are reloaded (`reloaded` is
     * what `get_models()` now returns) whether or not the cache update
     * (`cacheUpdated`) succeeded.
     */
    method UpdateModelsFromOllama(cacheUpdated: bool, reloaded: seq<Record>) returns (r: seq<Record>)
      modifies this
      ensures models == reloaded && r == reloaded
      ensures defaultModel == old(defaultModel)
    {
      models := reloaded;
      r := models;
    }

    /**
     * `update_models_from_remote(source, query, interactive)`: 'huggingface'
     * and 'ollama' in any case dispatch to their update; any other source
     * returns the records unchanged. `hfUpdated` is what the Hugging Face
     * update returns; it does not touch the manager.
     */
    method UpdateModelsFromRemote(source: string, hfUpdated: seq<Record>, cacheUpdated: bool, reloaded: seq<Record>)
      returns (r: seq<Record>)
      modifies this
      ensures defaultModel == old(defaultModel)
      ensures Lower(source) == "huggingface" ==> r == hfUpdated && models == old(models)
      ensures Lower(source) == "ollama" ==> r == reloaded && models == reloaded
      ensures Lower(source) != "huggingface" && Lower(source) != "ollama" ==> r == old(models) && models == old(models)
    {
      if Lower(source) == "huggingface" {
        return hfUpdated;
      } else if Lower(source) == "ollama" {
        r := UpdateModelsFromOllama(cacheUpdated, reloaded);
      } else {
        r := models;
      }
    }
  }

  /** Setting the same default twice answers the same both times, and the second call changes nothing. */
  method SetDefaultTwice(m: Manager, name: string, persisted: bool) returns (first: Outcome<bool>, second: Outcome<bool>)
    modifies m
    ensures first == second
    ensures m.models == old(m.models)
  {
    var before := m.models;
    first := m.SetDefaultModel(name, persisted);
    assert m.models == before;
    var d := m.defaultModel;
    second := m.SetDefaultModel(name, persisted);
    assert m.models == before;
    assert m.defaultModel == d;
  }
}
