/**
 * The Hugging Face side of the catalogue: how a record of the models API is
 * normalised into a cached model, how a search picks its pool (fresh cache,
 * stale cache or the built-in defaults) and filters it, and how a size
 * label is guessed from a model's texts.
 */
module HuggingFaceSearch {
  import opened Wrappers
  import opened Text
  import opened Seqs
  import opened Sorting

  /** A cached Hugging Face model dictionary. */
  datatype HfModel = HfModel(
    id: string,
    name: string,
    author: string,
    description: string,
    downloads: int,
    likes: int,
    tags: seq<string>)

  /** One record of the models API; `None` is a missing key. */
  datatype ApiModel = ApiModel(
    modelId: Option<string>,
    author: Option<string>,
    cardDescription: Option<string>,
    downloads: Option<int>,
    likes: Option<int>,
    tags: Option<seq<string>>)

  /** `s.split('/')[-1]`: what follows the last '/'. */
  function LastSegment(s: string): string {
    if s == [] || s[|s| - 1] == '/' then [] else LastSegment(s[..|s| - 1]) + [s[|s| - 1]]
  }

  /** The last segment is a suffix without '/', preceded by a '/' or by nothing. */
  lemma {:induction false} LastSegmentShape(s: string)
    ensures var r := LastSegment(s);
      |r| <= |s| && s[|s| - |r|..] == r && '/' !in r && (|r| < |s| ==> s[|s| - |r| - 1] == '/')
  {
    if s != [] && s[|s| - 1] != '/' {
      var init := s[..|s| - 1];
      LastSegmentShape(init);
      var r := LastSegment(init);
      assert LastSegment(s) == r + [s[|s| - 1]];
      assert s[|init| - |r|..] == init[|init| - |r|..] + [s[|s| - 1]];
    }
  }

  /** The tags of a normalised record: the API tags, with 'gguf' appended unless present. */
  function WithGguf(tags: seq<string>): (r: seq<string>)
    ensures |r| == if "gguf" in tags then |tags| else |tags| + 1
    ensures r[..|tags|] == tags && "gguf" in r
  {
    tags + (if "gguf" in tags then [] else ["gguf"])
  }

  /** The dictionary `update_huggingface_models_cache` builds for one API record. */
  function Normalise(a: ApiModel): (m: HfModel)
    ensures m.id == a.modelId.GetOr("")
    ensures m.tags == WithGguf(a.tags.GetOr([]))
  {
    var id := a.modelId.GetOr("");
    HfModel(id, LastSegment(id), a.author.GetOr(""), a.cardDescription.GetOr(""),
      a.downloads.GetOr(0), a.likes.GetOr(0), WithGguf(a.tags.GetOr([])))
  }

  /** A normalised name is the part of the id after its last '/', so an id without '/' is its own name. */
  lemma NormaliseName(a: ApiModel)
    ensures var m := Normalise(a);
      '/' !in m.name && |m.name| <= |m.id| && m.id[|m.id| - |m.name|..] == m.name && ('/' !in m.id ==> m.name == m.id)
  {
    var m := Normalise(a);
    LastSegmentShape(m.id);
  }

  /** The API loop: one normalised record per API record, in order. */
  method NormaliseAll(api: seq<ApiModel>) returns (models: seq<HfModel>)
    ensures models == MapSeq(api, Normalise)
  {
    models := [];
    var i := 0;
    while i < |api|
      invariant 0 <= i <= |api|
      invariant models == MapSeq(api[..i], Normalise)
    {
      MapSeqAppend(api[..i], api[i], Normalise);
      assert api[..i + 1] == api[..i] + [api[i]];
      models := models + [Normalise(api[i])];
      i := i + 1;
    }
    assert api[..i] == api;
  }

  /**
   * The API step of `update_huggingface_models_cache`: `None` when the
   * request failed, else the models it writes to the cache; a non-empty list
   * is written and reported as success.
   */
  function ApiUpdate(response: Option<seq<ApiModel>>): (r: Option<seq<HfModel>>)
    ensures r.Some? <==> response.Some? && response.value != []
    ensures r.Some? ==> |r.value| == |response.value|
  {
    if response.None? || response.value == [] then None else Some(MapSeq(response.value, Normalise))
  }

  /** What the search got from the cache layer: whether the web update succeeded and the cache read afterwards. */
  datatype CatalogRead = Read(updated: bool, cache: seq<HfModel>) | Raised

  /** The models the search filters: the fresh cache, else the stale cache, else the defaults. */
  function Pool(updated: bool, cache: seq<HfModel>, defaults: seq<HfModel>): (r: seq<HfModel>)
    ensures updated ==> r == cache
    ensures !updated && cache != [] ==> r == cache
    ensures !updated && cache == [] ==> r == defaults
  {
    if !updated && cache == [] then defaults else cache
  }

  /** `any(query in str(tag).lower() for tag in tags)` */
  predicate SomeTagContains(tags: seq<string>, q: string) {
    exists t :: t in tags && Contains(Lower(t), q)
  }

  /** The search test on an already lower-cased query. */
  predicate Matches(m: HfModel, q: string) {
    Contains(Lower(m.id), q) || Contains(Lower(m.name), q) || Contains(Lower(m.description), q) ||
    SomeTagContains(m.tags, q)
  }

  /** `if query:` — a query that is missing or empty filters nothing. */
  predicate HasQuery(query: Option<string>) {
    query.Some? && query.value != []
  }

  /** The test of one model: the id, name and description first, then the tags until one matches. */
  method MatchesQuery(m: HfModel, q: string) returns (hit: bool)
    ensures hit == Matches(m, q)
  {
    hit := Contains(Lower(m.id), q) || Contains(Lower(m.name), q) || Contains(Lower(m.description), q);
    if hit {
      return;
    }
    var j := 0;
    while j < |m.tags|
      invariant 0 <= j <= |m.tags|
      invariant forall k :: 0 <= k < j ==> !Contains(Lower(m.tags[k]), q)
    {
      if Contains(Lower(m.tags[j]), q) {
        return true;
      }
      j := j + 1;
    }
  }

  /** The filtering loop. */
  method FilterByQuery(models: seq<HfModel>, q: string) returns (filtered: seq<HfModel>)
    ensures filtered == Filter(models, m => Matches(m, q))
  {
    filtered := [];
    var i := 0;
    while i < |models|
      invariant 0 <= i <= |models|
      invariant filtered == Filter(models[..i], m => Matches(m, q))
    {
      FilterAppend(models[..i], [models[i]], m => Matches(m, q));
      assert models[..i + 1] == models[..i] + [models[i]];
      var hit := MatchesQuery(models[i], q);
      if hit {
        filtered := filtered + [models[i]];
      }
      i := i + 1;
    }
    assert models[..i] == models;
  }

  /** The test of the error fallback: only the name and the description, against the lower-cased query. */
  predicate FallbackMatches(m: HfModel, query: Option<string>) {
    !HasQuery(query) || Contains(Lower(m.name), Lower(query.value)) || Contains(Lower(m.description), Lower(query.value))
  }

  /** `search_huggingface_models(query, limit)` */
  method SearchHuggingFaceModels(query: Option<string>, limit: int, read: CatalogRead, defaults: seq<HfModel>)
    returns (r: seq<HfModel>)
    ensures read.Read? && !HasQuery(query) ==> r == SliceTo(Pool(read.updated, read.cache, defaults), limit)
    ensures read.Read? && HasQuery(query) ==>
      r == SliceTo(Filter(Pool(read.updated, read.cache, defaults), m => Matches(m, Lower(query.value))), limit)
    ensures read.Raised? ==> r == Filter(defaults, m => FallbackMatches(m, query))
  {
    if read.Raised? {
      r := [];
      var i := 0;
      while i < |defaults|
        invariant 0 <= i <= |defaults|
        invariant r == Filter(defaults[..i], m => FallbackMatches(m, query))
      {
        FilterAppend(defaults[..i], [defaults[i]], m => FallbackMatches(m, query));
        assert defaults[..i + 1] == defaults[..i] + [defaults[i]];
        if FallbackMatches(defaults[i], query) {
          r := r + [defaults[i]];
        }
        i := i + 1;
      }
      assert defaults[..i] == defaults;
      return;
    }
    var models := read.cache;
    if !read.updated && models == [] {
      models := defaults;
    }
    if HasQuery(query) {
      models := FilterByQuery(models, Lower(query.value));
    }
    r := SliceTo(models, limit);
  }

  /** A query search returns only matching models of the pool, and every match when the limit does not cut. */
  lemma SearchKeepsExactly(pool: seq<HfModel>, q: string, limit: int, m: HfModel)
    ensures m in SliceTo(Filter(pool, x => Matches(x, q)), limit) ==> m in pool && Matches(m, q)
    ensures limit >= |pool| && m in pool && Matches(m, q) ==> m in SliceTo(Filter(pool, x => Matches(x, q)), limit)
  {
    if m in pool && Matches(m, q) {
      FilterKeeps(pool, x => Matches(x, q), m);
    }
  }

  /** The result never holds more than `limit` models, and without a query it is the first `limit` of the pool. */
  lemma SearchHonoursLimit(pool: seq<HfModel>, q: string, limit: nat)
    ensures |SliceTo(Filter(pool, x => Matches(x, q)), limit)| <= limit
    ensures limit <= |pool| ==> SliceTo(pool, limit) == pool[..limit]
  {
  }

  /** The size labels tried, in order. */
  const SizeLabels := ["7b", "13b", "20b", "30b", "65b", "70b"]

  /** The index of the first label at or after `from` that occurs in `text`. */
  function FirstLabel(text: string, from: nat): (r: Option<nat>)
    requires from <= |SizeLabels|
    ensures r.Some? ==> from <= r.value < |SizeLabels| && Contains(text, SizeLabels[r.value])
    ensures r.Some? ==> forall k :: from <= k < r.value ==> !Contains(text, SizeLabels[k])
    ensures r.None? ==> forall k :: from <= k < |SizeLabels| ==> !Contains(text, SizeLabels[k])
    decreases |SizeLabels| - from
  {
    if from == |SizeLabels| then None
    else if Contains(text, SizeLabels[from]) then Some(from)
    else FirstLabel(text, from + 1)
  }

  /** A tag that looks like a size: it holds a 'b' (in either case) and a digit. */
  predicate SizedTag(t: string) {
    Contains(Lower(t), "b") && exists i :: 0 <= i < |t| && IsDigit(t[i])
  }

  /** The index of the first sized tag at or after `from`: the loop over the tags that returns at the first hit. */
  function FirstSizedIndex(tags: seq<string>, from: nat): (r: Option<nat>)
    requires from <= |tags|
    ensures r.Some? ==> from <= r.value < |tags| && SizedTag(tags[r.value])
    ensures r.Some? ==> forall k :: from <= k < r.value ==> !SizedTag(tags[k])
    ensures r.None? ==> forall k :: from <= k < |tags| ==> !SizedTag(tags[k])
    decreases |tags| - from
  {
    if from == |tags| then None
    else if SizedTag(tags[from]) then Some(from)
    else FirstSizedIndex(tags, from + 1)
  }

  /** The first sized tag, in list order. */
  function FirstSizedTag(tags: seq<string>): (r: Option<string>)
    ensures r.Some? ==> exists i ::
      0 <= i < |tags| && tags[i] == r.value && SizedTag(tags[i]) && forall j :: 0 <= j < i ==> !SizedTag(tags[j])
    ensures r.None? ==> forall t :: t in tags ==> !SizedTag(t)
  {
    match FirstSizedIndex(tags, 0)
    case Some(i) => Some(tags[i])
    case None => None
  }

  /** `extract_model_size` */
  function ExtractModelSize(name: string, description: string, tags: seq<string>): (r: string)
  {
    match FirstLabel(Lower(name), 0)
    case Some(k) => Upper(SizeLabels[k])
    case None =>
      match FirstLabel(Lower(description), 0)
      case Some(k) => Upper(SizeLabels[k])
      case None =>
        match FirstSizedTag(tags)
        case Some(t) => Upper(t)
        case None => "Unknown"
  }

  /** A name carrying a size label: "Llama-7B" is a 7B model, whatever its description says. */
  lemma ExtractModelSizeExample(description: string, tags: seq<string>)
    ensures ExtractModelSize("Llama-7B", description, tags) == "7B"
  {
    var n := Lower("Llama-7B");
    assert n == "llama-7b";
    ContainsAt(n, "7b", 6);
    assert FirstLabel(n, 0) == Some(0);
  }

  /** The label at `k` is the first of the list found in `text`. */
  predicate FirstIn(text: string, k: int) {
    0 <= k < |SizeLabels| && Contains(text, SizeLabels[k]) &&
    forall j :: 0 <= j < k ==> !Contains(text, SizeLabels[j])
  }

  /**
   * The name is searched first and the description second, each for the
   * labels in list order; then the tags; the answer is upper-cased.
   */
  lemma ExtractModelSizeOrder(name: string, description: string, tags: seq<string>)
    ensures var r := ExtractModelSize(name, description, tags);
      ((exists k :: FirstIn(Lower(name), k)) ==>
        exists k :: FirstIn(Lower(name), k) && r == Upper(SizeLabels[k])) &&
      ((forall k :: 0 <= k < |SizeLabels| ==> !Contains(Lower(name), SizeLabels[k])) &&
       (exists k :: FirstIn(Lower(description), k)) ==>
        exists k :: FirstIn(Lower(description), k) && r == Upper(SizeLabels[k])) &&
      ((forall k :: 0 <= k < |SizeLabels| ==> !Contains(Lower(name), SizeLabels[k]) && !Contains(Lower(description), SizeLabels[k])) ==>
        (r == "Unknown" <==> forall t :: t in tags ==> !SizedTag(t)) &&
        (r != "Unknown" ==> exists i ::
          0 <= i < |tags| && SizedTag(tags[i]) && r == Upper(tags[i]) && forall j :: 0 <= j < i ==> !SizedTag(tags[j])))
  {
    var n := FirstLabel(Lower(name), 0);
    var d := FirstLabel(Lower(description), 0);
    if n.Some? {
      assert FirstIn(Lower(name), n.value);
    } else if d.Some? {
      assert FirstIn(Lower(description), d.value);
    } else {
      var t := FirstSizedTag(tags);
      if t.Some? {
        assert Upper(t.value) != "Unknown" by {
          var i :| 0 <= i < |t.value| && IsDigit(t.value[i]);
          assert IsDigit(Upper(t.value)[i]);
        }
      }
    }
  }
}
