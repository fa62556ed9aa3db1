/**
 * The catalogue facade of the `getllm.models` package: it merges the
 * records of the Hugging Face and Ollama managers, keeps their caches, and
 * forwards metadata updates to the metadata manager.
 *
 * The managers are not part of this model: what each of their calls
 * returns is a parameter, `None` when the call raises. A record is a
 * dictionary with string values. The metadata manager is modelled by the
 * sequence of `update_model_metadata` calls the facade makes.
 */
module CatalogFacade {
  import opened Wrappers
  import opened Seqs
  import opened Sorting

  /** A model record: a dictionary of strings. */
  type Record = map<string, string>

  /** `{"source": source, **model}`: the record's own `source` key wins over the tag. */
  function Tagged(source: string, m: Record): (r: Record)
    ensures r.Keys == m.Keys + {"source"}
    ensures r["source"] == if "source" in m then m["source"] else source
    ensures forall k :: k in m ==> r[k] == m[k]
  {
    map["source" := source] + m
  }

  /** The tagged records of one manager, none when its call raised. */
  function Part(source: string, fetched: Option<seq<Record>>): seq<Record> {
    if fetched.Some? then MapSeq(fetched.value, m => Tagged(source, m)) else []
  }

  /** `get_models()`: the Hugging Face records, then the Ollama records. */
  function GetModels(hf: Option<seq<Record>>, ollama: Option<seq<Record>>): seq<Record> {
    Part("huggingface", hf) + Part("ollama", ollama)
  }

  /**
   * Every Hugging Face record comes first, in order and tagged, then every
   * Ollama record; a manager that raised contributes nothing and does not
   * stop the other.
   */
  lemma GetModelsLayout(hf: Option<seq<Record>>, ollama: Option<seq<Record>>)
    ensures var r := GetModels(hf, ollama);
      var n := if hf.Some? then |hf.value| else 0;
      var o := if ollama.Some? then |ollama.value| else 0;
      |r| == n + o &&
      (forall i :: 0 <= i < n ==> r[i] == Tagged("huggingface", hf.value[i])) &&
      (forall j :: 0 <= j < o ==> r[n + j] == Tagged("ollama", ollama.value[j]))
  {
    var r := GetModels(hf, ollama);
    var a, b := Part("huggingface", hf), Part("ollama", ollama);
    var n := if hf.Some? then |hf.value| else 0;
    forall i | 0 <= i < n
      ensures r[i] == Tagged("huggingface", hf.value[i])
    {
      PartAt("huggingface", hf, i);
      assert r[i] == a[i];
    }
    forall j | 0 <= j < |b|
      ensures r[n + j] == Tagged("ollama", ollama.value[j])
    {
      PartAt("ollama", ollama, j);
      assert r[n + j] == b[j];
    }
  }

  lemma PartAt(source: string, fetched: Option<seq<Record>>, i: int)
    requires fetched.Some? && 0 <= i < |fetched.value|
    ensures |Part(source, fetched)| == |fetched.value|
    ensures Part(source, fetched)[i] == Tagged(source, fetched.value[i])
  {
    MapSeqAt(fetched.value, m => Tagged(source, m), i);
  }

  /**
   * `update_huggingface_models_cache(limit)`: whether it reports success and
   * what it leaves in the cache file (`None`: nothing written). `fetched` is
   * what the manager returned for `limit`.
   */
  function UpdateHfCache(fetched: Option<seq<Record>>, writeSucceeds: bool): (r: (bool, Option<seq<Record>>))
    ensures r.0 <==> fetched.Some? && writeSucceeds
    ensures r.1.Some? <==> r.0
    ensures r.0 ==> r.1 == fetched
  {
    if fetched.Some? && writeSucceeds then (true, fetched) else (false, None)
  }

  /**
   * `load_huggingface_models_from_cache()` and `load_ollama_models_from_cache()`:
   * the parsed list, or no records when the file is missing or unreadable.
   */
  function LoadCache(read: FileRead<seq<Record>>): (r: seq<Record>)
    ensures read.NoFile? || read.Unparsable? ==> r == []
    ensures read.Parsed? ==> r == read.value
  {
    if read.Parsed? then read.value else []
  }

  /**
   * What a successful cache update writes, loading gives back. The file is
   * modelled by its parsed contents, so this is the composition of the two
   * contracts, not a statement about JSON encoding.
   */
  lemma CacheRoundTrip(fetched: Option<seq<Record>>, writeSucceeds: bool)
    requires UpdateHfCache(fetched, writeSucceeds).0
    ensures LoadCache(Parsed(UpdateHfCache(fetched, writeSucceeds).1.value)) == fetched.value
  {
  }

  /** `search_huggingface_models(query, limit)`: the manager's answer, or none when it raised. */
  function SearchHuggingFaceModels(searched: Option<seq<Record>>): (r: seq<Record>)
    ensures searched.None? ==> r == []
    ensures searched.Some? ==> r == searched.value
  {
    searched.GetOr([])
  }

  /** `get_huggingface_models(limit)`: the first `limit` records, none when the manager raised. */
  function GetHuggingFaceModels(fetched: Option<seq<Record>>, limit: int): (r: seq<Record>)
    ensures fetched.None? ==> r == []
    ensures fetched.Some? ==> |r| <= |fetched.value| && r == fetched.value[..|r|]
    ensures fetched.Some? && limit >= 0 ==> |r| == if limit < |fetched.value| then limit else |fetched.value|
  {
    if fetched.Some? then SliceTo(fetched.value, limit) else []
  }

  /** One `update_model_metadata(name, {"source": source, ...})` call. */
  datatype MetadataUpdate = MetadataUpdate(name: string, source: string)

  /** Every record has a `name` key. */
  predicate AllNamed(s: seq<Record>) {
    forall i :: 0 <= i < |s| ==> "name" in s[i]
  }

  /** The calls `model['name']` lets through: one per record up to the first without a name. */
  function NameCalls(s: seq<Record>, source: string): seq<MetadataUpdate> {
    if s == [] || "name" !in s[0] then []
    else [MetadataUpdate(s[0]["name"], source)] + NameCalls(s[1..], source)
  }

  /** When every record is named, there is exactly one call per record, in order, keyed by its name. */
  lemma {:induction false} NameCallsPerRecord(s: seq<Record>, source: string)
    requires AllNamed(s)
    ensures |NameCalls(s, source)| == |s|
    ensures forall i :: 0 <= i < |s| ==> NameCalls(s, source)[i] == MetadataUpdate(s[i]["name"], source)
  {
    if s != [] {
      assert AllNamed(s[1..]) by {
        forall i | 0 <= i < |s[1..]|
          ensures "name" in s[1..][i]
        {
          assert s[1..][i] == s[i + 1];
        }
      }
      NameCallsPerRecord(s[1..], source);
    }
  }

  /**
   * The loop `for model in models: update_model_metadata(model['name'], ...)`:
   * it stops with a `KeyError` at the first record without a name.
   */
  method RecordUpdates(s: seq<Record>, source: string) returns (ok: bool, calls: seq<MetadataUpdate>)
    ensures ok <==> AllNamed(s)
    ensures calls == NameCalls(s, source)
  {
    calls := [];
    var i := 0;
    while i < |s|
      invariant 0 <= i <= |s|
      invariant forall j :: 0 <= j < i ==> "name" in s[j]
      invariant calls + NameCalls(s[i..], source) == NameCalls(s, source)
    {
      assert s[i..][0] == s[i] && s[i..][1..] == s[i + 1..];
      if "name" !in s[i] {
        assert calls == NameCalls(s, source);
        return false, calls;
      }
      calls := calls + [MetadataUpdate(s[i]["name"], source)];
      i := i + 1;
    }
    assert s[i..] == [];
    ok := true;
  }

  /** `update_models_from_ollama()`: false when the manager raised or a record has no name. */
  method UpdateModelsFromOllama(fetched: Option<seq<Record>>) returns (ok: bool, calls: seq<MetadataUpdate>)
    ensures ok <==> fetched.Some? && AllNamed(fetched.value)
    ensures calls == if fetched.Some? then NameCalls(fetched.value, "ollama") else []
  {
    if fetched.None? {
      return false, [];
    }
    ok, calls := RecordUpdates(fetched.value, "ollama");
  }

  /**
   * `update_models_metadata()`: the Hugging Face updates, then
   * `update_models_from_ollama()`, whose own result is ignored. A failure
   * on the Hugging Face side stops before Ollama is asked.
   */
  method UpdateModelsMetadata(hf: Option<seq<Record>>, ollama: Option<seq<Record>>)
    returns (ok: bool, calls: seq<MetadataUpdate>)
    ensures ok <==> hf.Some? && AllNamed(hf.value)
    ensures !ok ==> calls == if hf.Some? then NameCalls(hf.value, "huggingface") else []
    ensures ok ==>
      calls == NameCalls(hf.value, "huggingface") + (if ollama.Some? then NameCalls(ollama.value, "ollama") else [])
  {
    if hf.None? {
      return false, [];
    }
    var hfCalls;
    ok, hfCalls := RecordUpdates(hf.value, "huggingface");
    if !ok {
      return false, hfCalls;
    }
    var _, ollamaCalls := UpdateModelsFromOllama(ollama);
    calls := hfCalls + ollamaCalls;
  }

  /** The metadata key of a Hugging Face record: its `name`, else its `id`, else ''. */
  function HfKey(m: Record): (k: string)
    ensures "name" in m ==> k == m["name"]
    ensures "name" !in m && "id" in m ==> k == m["id"]
    ensures "name" !in m && "id" !in m ==> k == ""
  {
    if "name" in m then m["name"] else if "id" in m then m["id"] else ""
  }

  /**
   * `update_models_from_huggingface(query, limit)`: one update per searched
   * record; a failed search yields no records, so this always succeeds.
   */
  method UpdateModelsFromHuggingface(searched: Option<seq<Record>>) returns (ok: bool, calls: seq<MetadataUpdate>)
    ensures ok
    ensures calls == MapSeq(SearchHuggingFaceModels(searched), m => MetadataUpdate(HfKey(m), "huggingface"))
  {
    var models := SearchHuggingFaceModels(searched);
    calls := [];
    var i := 0;
    while i < |models|
      invariant 0 <= i <= |models|
      invariant calls == MapSeq(models[..i], m => MetadataUpdate(HfKey(m), "huggingface"))
    {
      MapSeqAppend(models[..i], models[i], m => MetadataUpdate(HfKey(m), "huggingface"));
      assert models[..i + 1] == models[..i] + [models[i]];
      calls := calls + [MetadataUpdate(HfKey(models[i]), "huggingface")];
      i := i + 1;
    }
    assert models[..i] == models;
    ok := true;
  }

  /** Each searched record is updated once, in order, under its key, with source 'huggingface'. */
  lemma HuggingfaceUpdatesPerRecord(searched: Option<seq<Record>>, i: int)
    requires searched.Some? && 0 <= i < |searched.value|
    ensures |MapSeq(searched.value, m => MetadataUpdate(HfKey(m), "huggingface"))| == |searched.value|
    ensures MapSeq(searched.value, m => MetadataUpdate(HfKey(m), "huggingface"))[i] ==
      MetadataUpdate(HfKey(searched.value[i]), "huggingface")
  {
    MapSeqAt(searched.value, m => MetadataUpdate(HfKey(m), "huggingface"), i);
  }
}
