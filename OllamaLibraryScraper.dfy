/**
 * The browser-driven scraper of the Ollama library (`OllamaModelsScraper`):
 * what it keeps from a model card, which pages it asks for, how it
 * deduplicates the models of all pages and categories, the local search
 * over its `models` field and the tag tally of its command-line summary.
 * The browser is replaced by its observations: the texts of a card, and the
 * models each page or category request produced.
 */
module OllamaLibraryScraper {
  import opened Wrappers
  import opened Text
  import opened Seqs

  const BaseUrl := "https://ollama.com"
  const LibraryUrl := "https://ollama.com/library"
  const SearchUrl := "https://ollama.com/search"
  const MaxPages := 50
  const CardsPerPage := 5

  /**
   * What the browser shows of one model card: the text of its `h3`, the
   * `href` of its nested link (`None` when the element is missing, which
   * makes `find_element` raise), the texts of its paragraphs, of its
   * metadata `div`s and of its tag `span`s.
   */
  datatype Card = Card(
    heading: Option<string>,
    link: Option<string>,
    paragraphs: seq<string>,
    metaTexts: seq<string>,
    tagTexts: seq<string>)

  /** The dictionary `extract_model_info` builds, without its `scraped_at` timestamp. */
  datatype LibraryModel = LibraryModel(
    name: string,
    url: string,
    pulls: string,
    size: string,
    updated: string,
    description: string,
    tags: seq<string>,
    source: string,
    ollamaCommand: string)

  /** `f"{model['name']}_{model['url']}"`, the key both deduplication loops use. */
  function ModelKey(m: LibraryModel): string {
    m.name + "_" + m.url
  }

  /** `next((m for m in ms if wanted(m)), default)` */
  function FirstWith(ms: seq<string>, wanted: string -> bool, default: string): string {
    if ms == [] then default
    else if wanted(ms[0]) then ms[0]
    else FirstWith(ms[1..], wanted, default)
  }

  /** The default when nothing qualifies; otherwise the first entry that does. */
  lemma {:induction false} FirstWithIsFirst(ms: seq<string>, wanted: string -> bool, default: string)
    ensures (forall i :: 0 <= i < |ms| ==> !wanted(ms[i])) ==> FirstWith(ms, wanted, default) == default
    ensures forall i :: 0 <= i < |ms| && wanted(ms[i]) && (forall j :: 0 <= j < i ==> !wanted(ms[j])) ==>
      FirstWith(ms, wanted, default) == ms[i]
  {
    if ms != [] {
      FirstWithIsFirst(ms[1..], wanted, default);
      forall i | 0 <= i < |ms| && wanted(ms[i]) && (forall j :: 0 <= j < i ==> !wanted(ms[j]))
        ensures FirstWith(ms, wanted, default) == ms[i]
      {
        if i > 0 {
          assert !wanted(ms[0]);
          assert forall j :: 0 <= j < i - 1 ==> !wanted(ms[1..][j]) by {
            forall j | 0 <= j < i - 1 ensures !wanted(ms[1..][j]) {
              assert ms[1..][j] == ms[j + 1];
            }
          }
          assert ms[1..][i - 1] == ms[i];
        }
      }
      if forall i :: 0 <= i < |ms| ==> !wanted(ms[i]) {
        assert forall i :: 0 <= i < |ms[1..]| ==> !wanted(ms[1..][i]) by {
          forall i | 0 <= i < |ms[1..]| ensures !wanted(ms[1..][i]) {
            assert ms[1..][i] == ms[i + 1];
          }
        }
      }
    }
  }

  predicate IsPullsEntry(m: string) { Contains(m, "pull") || Contains(m, "download") }
  predicate IsSizeEntry(m: string) { Contains(m, "gb") || Contains(m, "mb") }
  predicate IsUpdatedEntry(m: string) { Contains(m, "ago") || Contains(m, "updated") }

  /** A tag text that is kept: non-empty and not one of the site's own labels. */
  predicate IsKeptTag(t: string) {
    t != [] && t != "Ollama" && t != "Model" && t != "Library"
  }

  /** The metadata entries as the scraper compares them: stripped and lower-cased. */
  function MetadataOf(c: Card): seq<string> {
    seq(|c.metaTexts|, i requires 0 <= i < |c.metaTexts| => Lower(Strip(c.metaTexts[i])))
  }

  function StrippedTags(c: Card): seq<string> {
    StripEach(c.tagTexts)
  }

  /** The record `extract_model_info` returns for a card, or `None` when a lookup raised. */
  function CardModel(c: Card): Option<LibraryModel> {
    if c.heading.Some? && c.link.Some? then Some(CardRecord(c, Strip(c.heading.value), c.link.value)) else None
  }

  /** The record of a card whose heading reads `name` and whose link is `href`. */
  function CardRecord(c: Card, name: string, href: string): LibraryModel {
    var ms := MetadataOf(c);
    LibraryModel(
      name, href,
      FirstWith(ms, IsPullsEntry, "0"),
      FirstWith(ms, IsSizeEntry, "Unknown"),
      FirstWith(ms, IsUpdatedEntry, "Unknown"),
      if c.paragraphs == [] then "" else Strip(c.paragraphs[0]),
      Filter(StrippedTags(c), IsKeptTag),
      "ollama",
      "ollama pull " + name)
  }

  /**
   * A card yields a record exactly when its heading and link exist; the
   * record's metadata fields are the first matching entries, with their
   * defaults, and its command pulls the model by name.
   */
  lemma CardModelFields(c: Card)
    ensures CardModel(c).None? <==> c.heading.None? || c.link.None?
    ensures CardModel(c).Some? ==>
      var r := CardModel(c).value;
      r.name == Strip(c.heading.value) && r.url == c.link.value &&
      r.description == (if c.paragraphs == [] then "" else Strip(c.paragraphs[0])) &&
      r.pulls == FirstWith(MetadataOf(c), IsPullsEntry, "0") &&
      r.size == FirstWith(MetadataOf(c), IsSizeEntry, "Unknown") &&
      r.updated == FirstWith(MetadataOf(c), IsUpdatedEntry, "Unknown") &&
      r.source == "ollama" && r.ollamaCommand == "ollama pull " + r.name
  {
  }

  /** Every kept tag is a non-empty text other than the labels, and every such text is kept. */
  lemma KeptTagsExactly(c: Card, t: string)
    ensures CardModel(c).Some? ==> (t in CardModel(c).value.tags <==> t in StrippedTags(c) && IsKeptTag(t))
  {
    if t in StrippedTags(c) && IsKeptTag(t) {
      FilterKeeps(StrippedTags(c), IsKeptTag, t);
    }
  }

  /**
   * The tag loop of `extract_model_info`: the stripped texts `keep` accepts,
   * in order. `ExtractModelInfo` runs it with `IsKeptTag`; the test is a
   * parameter so that the loop's proof does not unfold it.
   */
  method KeptTags(tagTexts: seq<string>, keep: string -> bool) returns (tags: seq<string>)
    ensures tags == Filter(StripEach(tagTexts), keep)
  {
    tags := [];
    var i := 0;
    while i < |tagTexts|
      invariant 0 <= i <= |tagTexts|
      invariant tags == Filter(StripEach(tagTexts[..i]), keep)
    {
      var tagText := Strip(tagTexts[i]);
      assert tagTexts[..i + 1] == tagTexts[..i] + [tagTexts[i]];
      StripEachAppend(tagTexts[..i], tagTexts[i]);
      FilterAppend(StripEach(tagTexts[..i]), [tagText], keep);
      if keep(tagText) {
        tags := tags + [tagText];
      }
      i := i + 1;
    }
    assert tagTexts[..i] == tagTexts;
  }

  /** `extract_model_info`: the record of a card, with the tags its tag loop keeps. */
  method ExtractModelInfo(c: Card) returns (r: Option<LibraryModel>)
    ensures r == CardModel(c)
  {
    if c.heading.None? || c.link.None? {
      return None;
    }
    var name := Strip(c.heading.value);
    var url := c.link.value;
    var description := if c.paragraphs == [] then "" else Strip(c.paragraphs[0]);
    var metadata := MetadataOf(c);
    var tags := KeptTags(c.tagTexts, IsKeptTag);
    r := Some(LibraryModel(
      name, url,
      FirstWith(metadata, IsPullsEntry, "0"),
      FirstWith(metadata, IsSizeEntry, "Unknown"),
      FirstWith(metadata, IsUpdatedEntry, "Unknown"),
      description, tags, "ollama", "ollama pull " + name));
  }

  /** The library URL of a result page: `?page=N` is added only after the first page. */
  function PageUrl(page: int): (url: string)
    ensures page <= 1 ==> url == LibraryUrl
    ensures page > 1 ==> url == LibraryUrl + "?page=" + NatToString(page)
  {
    if page > 1 then LibraryUrl + "?page=" + NatToString(page) else LibraryUrl
  }

  /** What loading one page gave: a browser error, or the cards it found. */
  datatype PageLoad = LoadFailed | Loaded(cards: seq<Card>)

  /** `scrape_library_page`: the records of at most the first five cards, or nothing when loading failed. */
  method ScrapeLibraryPage(load: PageLoad) returns (models: seq<LibraryModel>)
    ensures |models| <= CardsPerPage
    ensures load.LoadFailed? ==> models == []
    ensures load.Loaded? ==> models == FilterMap(SliceTo(load.cards, CardsPerPage), CardModel)
  {
    if load.LoadFailed? {
      return [];
    }
    var cards := SliceTo(load.cards, CardsPerPage);
    models := [];
    var i := 0;
    while i < |cards|
      invariant 0 <= i <= |cards|
      invariant models == FilterMap(cards[..i], CardModel)
    {
      var info := ExtractModelInfo(cards[i]);
      assert cards[..i + 1] == cards[..i] + [cards[i]];
      FilterMapAppend(cards[..i], cards[i], CardModel);
      if info.Some? {
        models := models + [info.value];
      }
      i := i + 1;
    }
    assert cards[..i] == cards;
  }

  /** The categories `scrape_all_categories` walks through; "" stands for all models. */
  const Categories: seq<string> :=
    ["", "vision", "code", "embedding", "tools", "multimodal", "chat", "reasoning", "math", "roleplay"]

  /**
   * One pass of a deduplication loop over `models`: appends to `seen`/`out`
   * every model whose key has not been seen yet. The callers pass
   * `ModelKey`; the key is a parameter so that the loop's proof does not
   * unfold it.
   */
  method AddUnseen(models: seq<LibraryModel>, key: LibraryModel -> string, seen0: set<string>, out0: seq<LibraryModel>)
    returns (seen: set<string>, out: seq<LibraryModel>)
    ensures out == out0 + FirstByKey(models, key, seen0)
    ensures seen == seen0 + KeySet(models, key)
  {
    seen, out := seen0, out0;
    var i := 0;
    while i < |models|
      invariant 0 <= i <= |models|
      invariant seen == seen0 + KeySet(models[..i], key)
      invariant out + FirstByKey(models[i..], key, seen) == out0 + FirstByKey(models, key, seen0)
    {
      var k := key(models[i]);
      FirstByKeyLoopStep(models, i, key, seen, out, out0 + FirstByKey(models, key, seen0));
      KeySetPrefixStep(models, i, key);
      if k !in seen {
        seen := seen + {k};
        out := out + [models[i]];
      }
      i := i + 1;
    }
    assert models[..i] == models;
  }

  /**
   * `scrape_all_categories`, given what each category request returned
   * (`search_models` ignores the category and reloads the first library page).
   */
  method ScrapeAllCategories(results: seq<seq<LibraryModel>>) returns (all: seq<LibraryModel>)
    requires |results| == |Categories|
    ensures all == FirstByKey(Flatten(results), ModelKey, {})
  {
    var seen: set<string> := {};
    all := [];
    var c := 0;
    while c < |results|
      invariant 0 <= c <= |results|
      invariant seen == KeySet(Flatten(results[..c]), ModelKey)
      invariant all == FirstByKey(Flatten(results[..c]), ModelKey, {})
    {
      var before := Flatten(results[..c]);
      assert results[..c + 1] == results[..c] + [results[c]];
      FlattenAppend(results[..c], [results[c]]);
      assert Flatten([results[c]]) == results[c] + Flatten([]);
      assert results[c] + [] == results[c];
      assert Flatten(results[..c + 1]) == before + results[c];
      FirstByKeyAppend(before, results[c], ModelKey, {});
      assert {} + KeySet(before, ModelKey) == seen;
      KeySetAppend(before, results[c]);
      seen, all := AddUnseen(results[c], ModelKey, seen, all);
      c := c + 1;
    }
    assert results[..c] == results;
  }

  lemma KeySetAppend(a: seq<LibraryModel>, b: seq<LibraryModel>)
    ensures KeySet(a + b, ModelKey) == KeySet(a, ModelKey) + KeySet(b, ModelKey)
  {
    forall k | k in KeySet(a + b, ModelKey) ensures k in KeySet(a, ModelKey) + KeySet(b, ModelKey) {
      var x :| x in a + b && ModelKey(x) == k;
      if x in a {
      } else {
        assert x in b;
      }
    }
    forall k | k in KeySet(a, ModelKey) + KeySet(b, ModelKey) ensures k in KeySet(a + b, ModelKey) {
      if k in KeySet(a, ModelKey) {
        var x :| x in a && ModelKey(x) == k;
        assert x in a + b;
      } else {
        var x :| x in b && ModelKey(x) == k;
        assert x in a + b;
      }
    }
  }

  /** The categories pass keeps one model per key, the first one met. */
  lemma CategoriesDistinct(results: seq<seq<LibraryModel>>)
    ensures DistinctKeys(FirstByKey(Flatten(results), ModelKey, {}), ModelKey)
    ensures forall m :: m in FirstByKey(Flatten(results), ModelKey, {}) ==>
      FirstIndexOfKey(Flatten(results), ModelKey, ModelKey(m)) >= 0 &&
      m == Flatten(results)[FirstIndexOfKey(Flatten(results), ModelKey, ModelKey(m))]
  {
    FirstByKeyDistinct(Flatten(results), ModelKey, {});
    forall m | m in FirstByKey(Flatten(results), ModelKey, {})
      ensures FirstIndexOfKey(Flatten(results), ModelKey, ModelKey(m)) >= 0 &&
        m == Flatten(results)[FirstIndexOfKey(Flatten(results), ModelKey, ModelKey(m))]
    {
      FirstByKeyKeepsFirst(Flatten(results), ModelKey, {}, m);
    }
  }

  /**
   * What `scrape_library_page(n)` returned: `pages[n - 1]`; a page after
   * the last one given held no models.
   */
  function PageAt(pages: seq<seq<LibraryModel>>, n: nat): seq<LibraryModel> {
    if 1 <= n <= |pages| then pages[n - 1] else []
  }

  /** The pages the page loop concatenates: from `page` on, up to the first empty one or page 50. */
  function PagesFrom(pages: seq<seq<LibraryModel>>, page: nat): seq<LibraryModel>
    decreases MaxPages + 1 - page
  {
    if page > MaxPages || PageAt(pages, page) == [] then []
    else PageAt(pages, page) + PagesFrom(pages, page + 1)
  }

  /** The number of pages the loop requests, starting at `page`. */
  function PagesRequested(pages: seq<seq<LibraryModel>>, page: nat): nat
    decreases MaxPages + 1 - page
  {
    if page > MaxPages then 0
    else if PageAt(pages, page) == [] then 1
    else 1 + PagesRequested(pages, page + 1)
  }

  /** From `page` on, the loop asks for no page after page 50. */
  lemma {:induction false} RequestedBound(pages: seq<seq<LibraryModel>>, page: nat)
    requires page <= MaxPages + 1
    ensures PagesRequested(pages, page) <= MaxPages + 1 - page
    decreases MaxPages + 1 - page
  {
    if page <= MaxPages && PageAt(pages, page) != [] {
      RequestedBound(pages, page + 1);
    }
  }

  /** The loop never asks for page 51, whatever the pages contain. */
  lemma AtMostMaxPages(pages: seq<seq<LibraryModel>>)
    ensures PagesRequested(pages, 1) <= MaxPages
  {
    RequestedBound(pages, 1);
  }

  /** Every page the loop scrapes before stopping held models; the page it stops at was empty or page 50. */
  lemma {:induction false} PagesStopAtFirstEmpty(pages: seq<seq<LibraryModel>>, page: nat, p: nat)
    requires 1 <= page <= p < page + PagesRequested(pages, page) - 1
    ensures PageAt(pages, p) != []
    decreases MaxPages + 1 - page
  {
    if p > page {
      PagesStopAtFirstEmpty(pages, page + 1, p);
    }
  }

  /** A page with models is added to what the loop has, and the loop goes on to the next page. */
  lemma PageStep(pages: seq<seq<LibraryModel>>, page: nat, all: seq<LibraryModel>)
    requires page <= MaxPages && PageAt(pages, page) != []
    ensures all + PagesFrom(pages, page) == (all + PageAt(pages, page)) + PagesFrom(pages, page + 1)
    ensures PagesRequested(pages, page) == 1 + PagesRequested(pages, page + 1)
  {
  }

  /** Where the loop stops, nothing is left to add and the last request was the stopping one. */
  lemma PageStop(pages: seq<seq<LibraryModel>>, page: nat, all: seq<LibraryModel>)
    requires page == MaxPages + 1 || (page <= MaxPages && PageAt(pages, page) == [])
    ensures all + PagesFrom(pages, page) == all
    ensures PagesRequested(pages, page) == if page <= MaxPages then 1 else 0
  {
    assert all + [] == all;
  }

  /**
   * The page loop of `scrape_all_models`: `PageAt(pages, n)` is what
   * `scrape_library_page(n)` returned.
   */
  method ScrapePages(pages: seq<seq<LibraryModel>>) returns (all: seq<LibraryModel>, requested: nat)
    ensures all == PagesFrom(pages, 1)
    ensures requested == PagesRequested(pages, 1) && requested <= MaxPages
  {
    all := [];
    requested := 0;
    var page := 1;
    ghost var total := PagesFrom(pages, page);
    ghost var count := PagesRequested(pages, page);
    while page <= MaxPages
      invariant 1 <= page <= MaxPages + 1
      invariant all + PagesFrom(pages, page) == total
      invariant requested + PagesRequested(pages, page) == count
    {
      var models := PageAt(pages, page);
      requested := requested + 1;
      if models == [] {
        break;
      }
      PageStep(pages, page, all);
      all := all + models;
      page := page + 1;
    }
    PageStop(pages, page, all);
    AtMostMaxPages(pages);
  }

  /**
   * The merge of `scrape_all_models`: library-page models first, then
   * category models, first key wins. With `detailed` set, the first kept
   * model with a URL calls `get_model_details`, which the class does not
   * define, so the call raises (`None` here).
   */
  method MergeModels(pageResults: seq<LibraryModel>, categoryResults: seq<LibraryModel>, detailed: bool)
    returns (r: Option<seq<LibraryModel>>)
    ensures r.None? <==> detailed && HasLinkedModel(FirstByKey(pageResults + categoryResults, ModelKey, {}))
    ensures r.Some? ==> r.value == FirstByKey(pageResults + categoryResults, ModelKey, {})
  {
    var s := pageResults + categoryResults;
    ghost var kept := FirstByKey(s, ModelKey, {});
    var seen: set<string> := {};
    var out: seq<LibraryModel> := [];
    var i := 0;
    while i < |s|
      invariant 0 <= i <= |s|
      invariant out + FirstByKey(s[i..], ModelKey, seen) == kept
      invariant detailed ==> !HasLinkedModel(out)
    {
      var raised;
      seen, out, raised := MergeOne(s, i, seen, out, detailed);
      if raised {
        LinkedModelFound(kept, out, s[i], FirstByKey(s[i + 1..], ModelKey, seen));
        return None;
      }
      i := i + 1;
    }
    assert FirstByKey(s[i..], ModelKey, seen) == [];
    assert out == kept;
    return Some(out);
  }

  /**
   * The body of the merge loop for `s[i]`: a model with a new key is kept,
   * unless details are wanted and it has a URL, where the lookup raises.
   */
  method MergeOne(s: seq<LibraryModel>, i: nat, seen0: set<string>, out0: seq<LibraryModel>, detailed: bool)
    returns (seen: set<string>, out: seq<LibraryModel>, raised: bool)
    requires i < |s|
    requires detailed ==> !HasLinkedModel(out0)
    ensures raised <==> ModelKey(s[i]) !in seen0 && detailed && s[i].url != []
    ensures raised ==> (out == out0 && seen == seen0 + {ModelKey(s[i])} &&
      FirstByKey(s[i..], ModelKey, seen0) == [s[i]] + FirstByKey(s[i + 1..], ModelKey, seen))
    ensures !raised ==> out + FirstByKey(s[i + 1..], ModelKey, seen) == out0 + FirstByKey(s[i..], ModelKey, seen0)
    ensures !raised && detailed ==> !HasLinkedModel(out)
  {
    seen, out, raised := seen0, out0, false;
    var key := ModelKey(s[i]);
    FirstByKeyStep(s, i, ModelKey, seen0);
    if key !in seen {
      seen := seen + {key};
      if detailed && s[i].url != [] {
        raised := true;
        return;
      }
      LinkedModelNotYet(out, s[i]);
      out := out + [s[i]];
    }
  }

  /** Some model has a non-empty URL. */
  predicate HasLinkedModel(ms: seq<LibraryModel>) {
    exists i :: 0 <= i < |ms| && ms[i].url != []
  }

  lemma LinkedModelFound(kept: seq<LibraryModel>, out: seq<LibraryModel>, x: LibraryModel, rest: seq<LibraryModel>)
    requires kept == out + [x] + rest && x.url != []
    ensures HasLinkedModel(kept)
  {
    assert kept[|out|] == x;
  }

  lemma LinkedModelNotYet(out: seq<LibraryModel>, x: LibraryModel)
    ensures HasLinkedModel(out + [x]) <==> HasLinkedModel(out) || x.url != []
  {
    if HasLinkedModel(out) {
      var i :| 0 <= i < |out| && out[i].url != [];
      assert (out + [x])[i] == out[i];
    }
    if HasLinkedModel(out + [x]) {
      var i :| 0 <= i < |out + [x]| && (out + [x])[i].url != [];
      if i < |out| {
        assert out[i] == (out + [x])[i];
      }
    }
    assert (out + [x])[|out|] == x;
  }

  /** Page models come first: the merge begins with the deduplicated page models. */
  lemma PageModelsFirst(pageResults: seq<LibraryModel>, categoryResults: seq<LibraryModel>)
    ensures var kept := FirstByKey(pageResults + categoryResults, ModelKey, {});
      |FirstByKey(pageResults, ModelKey, {})| <= |kept| &&
      kept[..|FirstByKey(pageResults, ModelKey, {})|] == FirstByKey(pageResults, ModelKey, {})
  {
    FirstByKeyAppend(pageResults, categoryResults, ModelKey, {});
  }

  /** The scraper object; `models` is only ever set to the empty list, by the constructor. */
  class LibraryScraper {
    const baseUrl: string
    const libraryUrl: string
    const searchUrl: string
    const headless: bool
    var models: seq<LibraryModel>

    constructor (headless: bool)
      ensures baseUrl == BaseUrl && libraryUrl == LibraryUrl && searchUrl == SearchUrl
      ensures this.headless == headless && models == []
    {
      baseUrl := BaseUrl;
      libraryUrl := BaseUrl + "/library";
      searchUrl := BaseUrl + "/search";
      this.headless := headless;
      models := [];
    }

    /** `search_local_models`: the loaded models matching the query, in their order. */
    method SearchLocalModels(query: string) returns (results: seq<LibraryModel>)
      ensures models == [] ==> results == []
      ensures results == Filter(models, MatchOf(Lower(query)))
    {
      if models == [] {
        return [];
      }
      results := KeepWhere(models, MatchOf(Lower(query)));
    }
  }

  /** The query in lower case occurs in the lower-cased name, description or some tag. */
  predicate MatchesQuery(m: LibraryModel, q: string) {
    Contains(Lower(m.name), q) || Contains(Lower(m.description), q) ||
    exists t :: t in m.tags && Contains(Lower(t), q)
  }

  /** `MatchesQuery` as the function value the search filters with. */
  function MatchOf(q: string): LibraryModel -> bool {
    m => MatchesQuery(m, q)
  }

  /** Exactly the matching models are returned. */
  lemma SearchExactly(ms: seq<LibraryModel>, query: string, m: LibraryModel)
    ensures m in Filter(ms, MatchOf(Lower(query))) <==> m in ms && MatchesQuery(m, Lower(query))
  {
    if m in ms && MatchesQuery(m, Lower(query)) {
      FilterKeeps(ms, MatchOf(Lower(query)), m);
    }
  }

  /** Nothing ever fills `models`, so on a fresh scraper every search is empty. */
  method FreshSearchIsEmpty(headless: bool, query: string) returns (results: seq<LibraryModel>)
    ensures results == []
  {
    var scraper := new LibraryScraper(headless);
    results := scraper.SearchLocalModels(query);
  }

  /** Every tag of every model, in order. */
  function AllTags(ms: seq<LibraryModel>): seq<string> {
    if ms == [] then [] else ms[0].tags + AllTags(ms[1..])
  }

  lemma AllTagsAppend(ms: seq<LibraryModel>, m: LibraryModel)
    ensures AllTags(ms + [m]) == AllTags(ms) + m.tags
  {
    if ms == [] {
      assert ms + [m] == [m];
      assert AllTags([m]) == m.tags + AllTags([]);
    } else {
      assert (ms + [m])[1..] == ms[1..] + [m];
      AllTagsAppend(ms[1..], m);
    }
  }

  /** `counts` records, for every element of `ms`, its multiplicity, and nothing else. */
  ghost predicate Tallies(counts: map<string, nat>, ms: multiset<string>) {
    (forall t :: t in counts <==> t in ms) && (forall t :: t in counts ==> counts[t] == ms[t])
  }

  lemma TallyAdd(counts: map<string, nat>, ms: multiset<string>, tag: string)
    requires Tallies(counts, ms)
    ensures Tallies(counts[tag := if tag in counts then counts[tag] + 1 else 1], ms + multiset{tag})
  {
  }

  /** The inner loop of the tally: one model's tags are added to `counts0`. */
  method CountTags(counts0: map<string, nat>, tags: seq<string>, ghost before: multiset<string>)
    returns (counts: map<string, nat>)
    requires Tallies(counts0, before)
    ensures Tallies(counts, before + multiset(tags))
  {
    counts := counts0;
    var j := 0;
    while j < |tags|
      invariant 0 <= j <= |tags|
      invariant Tallies(counts, before + multiset(tags[..j]))
    {
      var tag := tags[j];
      assert tags[..j + 1] == tags[..j] + [tag];
      TallyAdd(counts, before + multiset(tags[..j]), tag);
      counts := counts[tag := if tag in counts then counts[tag] + 1 else 1];
      j := j + 1;
    }
    assert tags[..j] == tags;
  }

  /** The tally in `main`: each tag is counted once per occurrence in the models' tag lists. */
  method TagCounts(ms: seq<LibraryModel>) returns (counts: map<string, nat>)
    ensures forall t :: t in counts <==> t in multiset(AllTags(ms))
    ensures forall t :: t in counts ==> counts[t] == multiset(AllTags(ms))[t]
  {
    counts := map[];
    var i := 0;
    while i < |ms|
      invariant 0 <= i <= |ms|
      invariant Tallies(counts, multiset(AllTags(ms[..i])))
    {
      counts := CountTags(counts, ms[i].tags, multiset(AllTags(ms[..i])));
      assert ms[..i + 1] == ms[..i] + [ms[i]];
      AllTagsAppend(ms[..i], ms[i]);
      i := i + 1;
    }
    assert ms[..i] == ms;
  }
}
