/**
 * The polling monitor of the Ollama library: what it extracts from each
 * model list item, the fingerprint by which it detects a change of the
 * catalogue, and when it writes a new snapshot. A list item is given by the
 * texts the HTML parser returns for it (`get_text(strip=True)`).
 */
module OllamaMonitor {
  import opened Wrappers
  import opened Text
  import opened Seqs
  import opened Sorting

  /**
   * One `li[x-test-model]` element: the text of its `h2` (`None` without
   * one), the `href` of its first link that has one, the text of the
   * paragraph after the heading, the texts of its size spans, the texts of
   * the spans of its metadata row (`None` without the row) and the texts of
   * its tag spans.
   */
  datatype Item = Item(
    heading: Option<string>,
    href: Option<string>,
    description: Option<string>,
    sizeTexts: seq<string>,
    metaTexts: Option<seq<string>>,
    tagTexts: seq<string>)

  /** The dictionary built for one model. */
  datatype MonitorModel = MonitorModel(
    name: string,
    url: string,
    description: string,
    sizes: seq<string>,
    tags: seq<string>,
    metadata: map<string, string>)

  const SiteUrl := "https://ollama.com"
  const NoDescription := "No description"

  /** A size text: non-empty and holding one of b, k, m, g in either case. */
  predicate IsSizeText(t: string) {
    t != [] && (Contains(Lower(t), "b") || Contains(Lower(t), "k") || Contains(Lower(t), "m") || Contains(Lower(t), "g"))
  }

  /** The key and value of a metadata span, split at its first ':'; `None` without a ':'. */
  function MetaEntry(t: string): Option<(string, string)> {
    match IndexFrom(t, ":", 0)
    case Some(i) => Some((Lower(Strip(t[..i])), Strip(t[i + 1..])))
    case None => None
  }

  /** The metadata dictionary after the spans have been read in order. */
  function MetadataOf(spans: seq<string>): map<string, string> {
    if spans == [] then map[]
    else
      var m := MetadataOf(spans[..|spans| - 1]);
      match MetaEntry(spans[|spans| - 1])
      case Some((k, v)) => m[k := v]
      case None => m
  }

  /** The span at `i` has a ':' and its key is `k`. */
  predicate HasKey(spans: seq<string>, i: int, k: string) {
    0 <= i < |spans| && MetaEntry(spans[i]).Some? && MetaEntry(spans[i]).value.0 == k
  }

  /** A key is present exactly when some span carries it... */
  lemma {:induction false} MetadataHasKey(spans: seq<string>, k: string)
    ensures k in MetadataOf(spans) <==> exists i :: HasKey(spans, i, k)
  {
    if spans != [] {
      var n := |spans| - 1;
      var init := spans[..n];
      MetadataHasKey(init, k);
      if !HasKey(spans, n, k) && k in MetadataOf(spans) {
        var i :| HasKey(init, i, k);
        assert HasKey(spans, i, k);
      }
      if !HasKey(spans, n, k) && k !in MetadataOf(spans) {
        assert k !in MetadataOf(init);
        forall i | 0 <= i < n ensures !HasKey(spans, i, k) {
          assert !HasKey(init, i, k) && spans[i] == init[i];
        }
      }
    }
  }

  /** ...and the last span that carries it gives its value: a later duplicate overwrites. */
  lemma {:induction false} MetadataLastWins(spans: seq<string>, k: string, i: int)
    requires HasKey(spans, i, k)
    requires forall j :: i < j < |spans| ==> !HasKey(spans, j, k)
    ensures k in MetadataOf(spans) && MetadataOf(spans)[k] == MetaEntry(spans[i]).value.1
  {
    var n := |spans| - 1;
    if i < n {
      var init := spans[..n];
      assert HasKey(init, i, k);
      forall j | i < j < |init| ensures !HasKey(init, j, k) {
        assert !HasKey(spans, j, k) && init[j] == spans[j];
      }
      MetadataLastWins(init, k, i);
      assert !HasKey(spans, n, k);
      assert MetadataOf(spans)[k] == MetadataOf(init)[k];
    }
  }

  /** The metadata loop: every span with a ':' sets its key. */
  method CollectMetadata(texts: Option<seq<string>>) returns (metadata: map<string, string>)
    ensures texts.None? ==> metadata == map[]
    ensures texts.Some? ==> metadata == MetadataOf(texts.value)
  {
    metadata := map[];
    if texts.None? {
      return;
    }
    var spans := texts.value;
    var i := 0;
    while i < |spans|
      invariant 0 <= i <= |spans|
      invariant metadata == MetadataOf(spans[..i])
    {
      assert spans[..i + 1][..i] == spans[..i];
      var entry := MetaEntry(spans[i]);
      if entry.Some? {
        metadata := metadata[entry.value.0 := entry.value.1];
      }
      i := i + 1;
    }
    assert spans[..i] == spans;
  }

  /** A tag text is kept when it is non-empty and not already a size. */
  function TagFilter(sizes: seq<string>): string -> bool {
    t => t != [] && t !in sizes
  }

  /** The tag loop: the tag texts that are not sizes, in order. */
  method CollectTags(texts: seq<string>, sizes: seq<string>) returns (tags: seq<string>)
    ensures tags == Filter(texts, TagFilter(sizes))
  {
    tags := [];
    var i := 0;
    while i < |texts|
      invariant 0 <= i <= |texts|
      invariant tags == Filter(texts[..i], TagFilter(sizes))
    {
      assert texts[..i + 1] == texts[..i] + [texts[i]];
      FilterAppend(texts[..i], [texts[i]], TagFilter(sizes));
      if texts[i] != [] && texts[i] !in sizes {
        tags := tags + [texts[i]];
      }
      i := i + 1;
    }
    assert texts[..i] == texts;
  }

  /** The record an item yields; items without a heading or with an empty one are skipped. */
  function ItemModel(item: Item): Option<MonitorModel> {
    if item.heading.None? || item.heading.value == [] then None
    else Some(ItemRecord(item, item.heading.value))
  }

  /** The record of an item whose heading reads `name`. */
  function ItemRecord(item: Item, name: string): MonitorModel {
    var sizes := Filter(item.sizeTexts, IsSizeText);
    MonitorModel(
      name,
      ModelUrl(item.href),
      if item.description.GetOr("") == [] then NoDescription else item.description.value,
      sizes,
      Filter(item.tagTexts, TagFilter(sizes)),
      if item.metaTexts.None? then map[] else MetadataOf(item.metaTexts.value))
  }

  /** The model URL: only a link into `/library/` counts, and it is made absolute. */
  function ModelUrl(href: Option<string>): (url: string)
    ensures href.Some? && StartsWith(href.value, "/library/") ==> url == SiteUrl + href.value
    ensures !(href.Some? && StartsWith(href.value, "/library/")) ==> url == ""
  {
    if href.Some? && StartsWith(href.value, "/library/") then SiteUrl + href.value else ""
  }

  /** The extraction of one item inside `scrape_models`. */
  method ExtractItem(item: Item) returns (r: Option<MonitorModel>)
    ensures r == ItemModel(item)
  {
    if item.heading.None? {
      return None;
    }
    var name := item.heading.value;
    if name == [] {
      return None;
    }
    var url := "";
    if item.href.Some? && StartsWith(item.href.value, "/library/") {
      url := SiteUrl + item.href.value;
    }
    var description := "";
    if item.description.Some? {
      description := item.description.value;
    }
    var sizes := KeepWhere(item.sizeTexts, IsSizeText);
    var metadata := CollectMetadata(item.metaTexts);
    var tags := CollectTags(item.tagTexts, sizes);
    r := Some(MonitorModel(name, url, if description == [] then NoDescription else description, sizes, tags, metadata));
  }

  /** Every extracted record has a name, a description and only size-like sizes; no tag repeats a size. */
  lemma ItemModelShape(item: Item)
    ensures ItemModel(item).Some? <==> item.heading.Some? && item.heading.value != []
    ensures ItemModel(item).Some? ==>
      var m := ItemModel(item).value;
      m.name == item.heading.value && m.description != [] &&
      (forall s :: s in m.sizes ==> s in item.sizeTexts && IsSizeText(s)) &&
      (forall t :: t in m.tags ==> t in item.tagTexts && t != [] && t !in m.sizes)
  {
  }

  /** What fetching the library page gave: a request error, or the list items found. */
  datatype Listing = RequestFailed | Listed(items: seq<Item>)

  /** `scrape_models`: the records of the items that have a name, in page order. */
  method ScrapeModels(listing: Listing) returns (models: seq<MonitorModel>)
    ensures listing.RequestFailed? ==> models == []
    ensures listing.Listed? ==> models == FilterMap(listing.items, ItemModel)
  {
    if listing.RequestFailed? || listing.items == [] {
      return [];
    }
    var items := listing.items;
    models := [];
    var i := 0;
    while i < |items|
      invariant 0 <= i <= |items|
      invariant models == FilterMap(items[..i], ItemModel)
    {
      var info := ExtractItem(items[i]);
      assert items[..i + 1] == items[..i] + [items[i]];
      FilterMapAppend(items[..i], items[i], ItemModel);
      if info.Some? {
        models := models + [info.value];
      }
      i := i + 1;
    }
    assert items[..i] == items;
  }

  /**
   * The canonical form of one model that the fingerprint hashes. Python's
   * `hash` is replaced by this form itself, so equal fingerprints here mean
   * equal canonical data; `dict(sorted(items))` is the dictionary itself.
   */
  datatype Canon = Canon(
    name: string,
    description: string,
    sizes: seq<string>,
    tags: seq<string>,
    metadata: map<string, string>)

  function CanonOf(m: MonitorModel): Canon {
    Canon(m.name, m.description, SortStrings(m.sizes), SortStrings(m.tags), m.metadata)
  }

  /** The sort key of both the fingerprint and the saved file: the lower-cased name. */
  function NameKey(m: MonitorModel): string {
    Lower(m.name)
  }

  /** `get_models_fingerprint`: `None` for no models, else the canonical forms in name order. */
  function Fingerprint(models: seq<MonitorModel>): (r: Option<seq<Canon>>)
    ensures r.None? <==> models == []
    ensures r.Some? ==> |r.value| == |models|
  {
    if models == [] then None
    else
      SortByPermutes(models, NameKey);
      assert |multiset(SortBy(models, NameKey))| == |models|;
      Some(MapSeq(SortBy(models, NameKey), CanonOf))
  }

  /**
   * The fingerprint holds one canonical entry per model, the same entries
   * whatever the input order, in order of lower-cased name; models with the
   * same lower-cased name keep their input order, as `sorted` is stable.
   */
  lemma FingerprintEntries(models: seq<MonitorModel>, k: string)
    requires models != []
    ensures var fp := Fingerprint(models).value;
      multiset(fp) == multiset(MapSeq(models, CanonOf)) &&
      (forall i, j :: 0 <= i < j < |fp| ==> StrLe(Lower(fp[i].name), Lower(fp[j].name))) &&
      MapSeq(KeyRun(models, NameKey, k), CanonOf) == MapSeq(KeyRun(SortBy(models, NameKey), NameKey, k), CanonOf)
  {
    var sorted := SortBy(models, NameKey);
    var fp := MapSeq(sorted, CanonOf);
    SortByMapMultiset(models, NameKey, CanonOf);
    SortBySorted(models, NameKey);
    SortByStable(models, NameKey, k);
    forall i, j | 0 <= i < j < |fp|
      ensures StrLe(Lower(fp[i].name), Lower(fp[j].name))
    {
      MapSeqAt(sorted, CanonOf, i);
      MapSeqAt(sorted, CanonOf, j);
      assert StrLe(NameKey(sorted[i]), NameKey(sorted[j]));
    }
  }

  /** Two models look alike to the fingerprint when all that differs is the URL or the order of sizes and tags. */
  predicate Alike(a: MonitorModel, b: MonitorModel) {
    a.name == b.name && a.description == b.description && a.metadata == b.metadata &&
    multiset(a.sizes) == multiset(b.sizes) && multiset(a.tags) == multiset(b.tags)
  }

  lemma AlikeCanon(a: MonitorModel, b: MonitorModel)
    requires Alike(a, b)
    ensures CanonOf(a) == CanonOf(b)
  {
    SortStringsOrderFree(a.sizes, b.sizes);
    SortStringsOrderFree(a.tags, b.tags);
  }

  lemma {:induction false} MapCanonAlike(s: seq<MonitorModel>, f: MonitorModel -> MonitorModel)
    requires forall m :: Alike(f(m), m)
    ensures MapSeq(MapSeq(s, f), CanonOf) == MapSeq(s, CanonOf)
  {
    if s != [] {
      AlikeCanon(f(s[0]), s[0]);
      MapCanonAlike(s[1..], f);
    }
  }

  /**
   * The fingerprint does not see URLs or the order within sizes and tags:
   * rewriting every model into one that is alike leaves it unchanged.
   */
  lemma FingerprintIgnoresUrlAndOrder(models: seq<MonitorModel>, f: MonitorModel -> MonitorModel)
    requires forall m :: Alike(f(m), m)
    ensures Fingerprint(MapSeq(models, f)) == Fingerprint(models)
  {
    if models != [] {
      SortByMap(models, NameKey, f);
      MapCanonAlike(SortBy(models, NameKey), f);
    }
  }

  /** What `save_models_data` did: the file it wrote, the fingerprint it returns and the models it wrote. */
  datatype SaveResult = SaveResult(
    file: Option<string>,
    fingerprint: Option<seq<Canon>>,
    written: Option<seq<MonitorModel>>)

  const OutputDir := "ollama_models_data"

  function SnapshotName(timestamp: string): string {
    OutputDir + "/ollama_models_" + timestamp + ".json"
  }

  /**
   * `save_models_data(models, prev_fingerprint)`; `timestamp` is the clock
   * reading and `writeSucceeds` whether creating and writing the file works.
   */
  function SaveModelsData(models: seq<MonitorModel>, prev: Option<seq<Canon>>, timestamp: string, writeSucceeds: bool)
    : (r: SaveResult)
    ensures models == [] ==> r == SaveResult(None, None, None)
    ensures models != [] ==> r.fingerprint == Fingerprint(models)
    ensures models != [] && Fingerprint(models) == prev ==> r.file.None? && r.written.None?
    ensures models != [] && Fingerprint(models) != prev && writeSucceeds ==>
      r.file == Some(SnapshotName(timestamp)) && r.written == Some(SortBy(models, NameKey))
    ensures !writeSucceeds ==> r.file.None? && r.written.None?
  {
    if models == [] then SaveResult(None, None, None)
    else
      var sorted := SortBy(models, NameKey);
      SortByIdempotent(models, NameKey);
      SortByPermutes(models, NameKey);
      assert |multiset(sorted)| == |models|;
      var current := Fingerprint(sorted);
      if current != prev && writeSucceeds then SaveResult(Some(SnapshotName(timestamp)), current, Some(sorted))
      else SaveResult(None, current, None)
  }

  /** Saving the same models again with the fingerprint the first save returned writes nothing. */
  lemma SecondSaveWritesNothing(models: seq<MonitorModel>, prev: Option<seq<Canon>>, t1: string, t2: string, w1: bool, w2: bool)
    ensures var first := SaveModelsData(models, prev, t1, w1);
      SaveModelsData(models, first.fingerprint, t2, w2).written.None?
  {
  }
}
