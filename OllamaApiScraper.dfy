/**
 * The Ollama library fetcher of `getllm.scrapers`: it lists the library,
 * asks for the tags of each named model and turns every tag into one model
 * record, then writes the records to the cache file.
 *
 * The web API is not modelled: the library listing and the tags of each
 * model are parameters, `None` when the request or its decoding raises.
 */
module OllamaApiScraper {
  import opened Wrappers
  import opened Text
  import opened Seqs
  import opened Sorting

  const OllamaApiBase := "https://ollama.ai"
  const OllamaLibraryUrl := OllamaApiBase + "/library"

  /** One entry of the library listing: a dictionary with an optional `name`, or something else. */
  datatype ListingEntry = NotADict | Entry(name: Option<string>)

  /** The decoded listing: a JSON list, or another JSON value. */
  datatype Listing = NotAList | Entries(entries: seq<ListingEntry>)

  /** The `details` of a tag. */
  datatype TagDetails = TagDetails(architecture: Option<string>, os: Option<string>, created: Option<string>)

  /** What the API says about one tag. */
  datatype TagInfo = TagInfo(size: Option<int>, digest: Option<string>, lastModified: Option<string>,
                             details: Option<TagDetails>)

  /** The architecture, os and created keys, each '' when missing. */
  datatype DetailFields = DetailFields(architecture: string, os: string, created: string)

  /** The `metadata` of a record; `details` is present exactly when the tag has details. */
  datatype Metadata = Metadata(size: int, digest: string, lastModified: string, details: Option<DetailFields>)

  /** One model record: a model name with one of its tags. */
  datatype ModelRecord = ModelRecord(name: string, tag: string, fullName: string, source: string, url: string,
                                     metadata: Metadata)

  /** `name:tag`, or the bare name for the 'latest' tag. */
  function FullName(name: string, tag: string): (full: string)
    ensures tag == "latest" ==> full == name
    ensures tag != "latest" ==> full == name + ":" + tag
  {
    if tag != "latest" then name + ":" + tag else name
  }

  /** Reading a full name back: the text before the first ':' and the tag after it, 'latest' when there is none. */
  function ParseFullName(full: string): (r: (string, string))
    ensures ':' !in full ==> r == (full, "latest")
  {
    if ':' in full then
      var i := FirstColon(full);
      (full[..i], full[i + 1..])
    else (full, "latest")
  }

  function FirstColon(s: string): (i: nat)
    requires ':' in s
    ensures i < |s| && s[i] == ':' && ':' !in s[..i]
  {
    if s[0] == ':' then 0 else
      assert s == [s[0]] + s[1..];
      var j := FirstColon(s[1..]);
      assert s[..j + 1] == [s[0]] + s[1..][..j];
      j + 1
  }

  /** A name without ':' and its tag are recovered from the full name. */
  lemma FullNameRoundTrip(name: string, tag: string)
    requires ':' !in name
    ensures ParseFullName(FullName(name, tag)) == (name, tag)
  {
    if tag != "latest" {
      var full := FullName(name, tag);
      assert full[|name|] == ':';
      assert ':' in full;
      var i := FirstColon(full);
      assert full[..|name|] == name;
      assert i == |name|;
      assert full[i + 1..] == tag;
    }
  }

  /** The details a record carries, each key '' when missing. */
  function DetailFieldsOf(d: TagDetails): DetailFields {
    DetailFields(d.architecture.GetOr(""), d.os.GetOr(""), d.created.GetOr(""))
  }

  /** The record built for one tag of a model. */
  function RecordOf(name: string, tagName: string, info: TagInfo): (r: ModelRecord)
    ensures r.name == name && r.tag == tagName && r.fullName == FullName(name, tagName)
    ensures r.source == "ollama" && r.url == "https://ollama.ai/library/" + name
    ensures r.metadata.size == info.size.GetOr(0)
    ensures r.metadata.digest == info.digest.GetOr("") && r.metadata.lastModified == info.lastModified.GetOr("")
    ensures r.metadata.details.Some? <==> info.details.Some?
  {
    var details := if info.details.Some? then Some(DetailFieldsOf(info.details.value)) else None;
    ModelRecord(name, tagName, FullName(name, tagName), "ollama", "https://ollama.ai/library/" + name,
      Metadata(info.size.GetOr(0), info.digest.GetOr(""), info.lastModified.GetOr(""), details))
  }

  /** The name of an entry that is processed: a dictionary whose `name` is present and non-empty. */
  function NameOf(e: ListingEntry): Option<string> {
    if e.Entry? && e.name.Some? && e.name.value != [] then e.name else None
  }

  /**
   * The records of one listing entry: none for an entry without a name or
   * whose tag request raised, else one per tag in the order of the answer.
   * `tagsOf(name)` is the `tags` of the answer: empty for a status other
   * than 200 or a missing `tags` key.
   */
  function EntryRecords(tagsOf: string -> Option<seq<(string, TagInfo)>>, e: ListingEntry): seq<ModelRecord> {
    var name := NameOf(e);
    if name.None? || tagsOf(name.value).None? then []
    else MapSeq(tagsOf(name.value).value, (t: (string, TagInfo)) => RecordOf(name.value, t.0, t.1))
  }

  /**
   * What `get_models` does when it meets an entry: `bound` says whether the
   * loop variable `name` already holds a value. A non-dictionary entry makes
   * `model_data.get` raise; the handler then reads `name`, which raises
   * again (an unbound local) when no earlier entry assigned it, and that
   * escapes `get_models`. Otherwise the entry gives its records.
   */
  function EntryOutcome(tagsOf: string -> Option<seq<(string, TagInfo)>>, e: ListingEntry, bound: bool): Outcome {
    if e.NotADict? && !bound then Raised else Returned(EntryRecords(tagsOf, e))
  }

  /** What `get_models` gives: its list of records, or the exception that escapes it. */
  datatype Outcome = Raised | Returned(models: seq<ModelRecord>)

  /** What `get_models` returns, or `Raised` when the first listing entry is not a dictionary. */
  function ModelsOf(listing: Option<Listing>, tagsOf: string -> Option<seq<(string, TagInfo)>>): Outcome {
    if listing.None? || listing.value.NotAList? then Returned([])
    else if listing.value.entries != [] && listing.value.entries[0].NotADict? then Raised
    else Returned(Flatten(MapSeq(listing.value.entries, e => EntryRecords(tagsOf, e))))
  }

  /**
   * `get_models` raises exactly for a list whose first entry is not a
   * dictionary; a later such entry is skipped, since `name` holds the
   * previous entry's name by then.
   */
  lemma RaisesIffFirstNotDict(listing: Option<Listing>, tagsOf: string -> Option<seq<(string, TagInfo)>>)
    ensures ModelsOf(listing, tagsOf).Raised? <==>
      listing.Some? && listing.value.Entries? && listing.value.entries != [] && listing.value.entries[0].NotADict?
    ensures forall e: ListingEntry :: e.NotADict? ==> EntryOutcome(tagsOf, e, true) == Returned([]) && EntryOutcome(tagsOf, e, false).Raised?
  {
  }

  /** One record per tag of a named entry, each for that tag, in order. */
  lemma EntryRecordsPerTag(tagsOf: string -> Option<seq<(string, TagInfo)>>, e: ListingEntry, k: int)
    requires NameOf(e).Some? && tagsOf(NameOf(e).value).Some?
    requires 0 <= k < |tagsOf(NameOf(e).value).value|
    ensures var tags := tagsOf(NameOf(e).value).value;
      |EntryRecords(tagsOf, e)| == |tags| &&
      EntryRecords(tagsOf, e)[k] == RecordOf(NameOf(e).value, tags[k].0, tags[k].1)
  {
    var name := NameOf(e).value;
    MapSeqAt(tagsOf(name).value, (t: (string, TagInfo)) => RecordOf(name, t.0, t.1), k);
  }

  /** Every record an entry yields has the entry's non-empty name. */
  lemma EntryRecordsNamed(tagsOf: string -> Option<seq<(string, TagInfo)>>, e: ListingEntry, r: ModelRecord)
    requires r in EntryRecords(tagsOf, e)
    ensures NameOf(e).Some? && r.name == NameOf(e).value && r.name != []
  {
    var name := NameOf(e).value;
    var tags := tagsOf(name).value;
    var k :| 0 <= k < |EntryRecords(tagsOf, e)| && EntryRecords(tagsOf, e)[k] == r;
    MapSeqAt(tags, (t: (string, TagInfo)) => RecordOf(name, t.0, t.1), k);
  }

  /** Every record that is returned comes from a listed entry with a non-empty name. */
  lemma {:induction false} ModelsNamed(entries: seq<ListingEntry>, tagsOf: string -> Option<seq<(string, TagInfo)>>,
                                       r: ModelRecord)
    requires r in Flatten(MapSeq(entries, e => EntryRecords(tagsOf, e)))
    ensures r.name != [] && r.source == "ollama"
    ensures exists e :: e in entries && NameOf(e) == Some(r.name)
  {
    var rs := EntryRecords(tagsOf, entries[0]);
    assert MapSeq(entries, e => EntryRecords(tagsOf, e)) ==
      [rs] + MapSeq(entries[1..], e => EntryRecords(tagsOf, e));
    if r in rs {
      EntryRecordsNamed(tagsOf, entries[0], r);
      var name := NameOf(entries[0]).value;
      var k :| 0 <= k < |rs| && rs[k] == r;
      MapSeqAt(tagsOf(name).value, (t: (string, TagInfo)) => RecordOf(name, t.0, t.1), k);
      assert entries[0] in entries;
    } else {
      ModelsNamed(entries[1..], tagsOf, r);
      var e :| e in entries[1..] && NameOf(e) == Some(r.name);
      assert e in entries;
    }
  }

  /** The fetcher; `api_base` falls back to the official API when not given or empty. */
  class Scraper {
    const apiBase: string

    constructor (base: Option<string>)
      ensures apiBase == if base.Some? && base.value != [] then base.value else OllamaApiBase
    {
      apiBase := if base.Some? && base.value != [] then base.value else OllamaApiBase;
    }

    /**
     * `get_models()`: `listing` is the decoded answer for the library URL,
     * `None` when the request raised. The tag requests go to the library
     * URL, whatever `apiBase` is.
     */
    method GetModels(listing: Option<Listing>, tagsOf: string -> Option<seq<(string, TagInfo)>>)
      returns (result: Outcome)
      ensures result == ModelsOf(listing, tagsOf)
    {
      if listing.None? || listing.value.NotAList? {
        return Returned([]);
      }
      var entries := listing.value.entries;
      var models := [];
      var bound := false;
      var i := 0;
      while i < |entries|
        invariant 0 <= i <= |entries|
        invariant bound == (i > 0) && (i > 0 ==> entries[0].Entry?)
        invariant models == Flatten(MapSeq(entries[..i], e => EntryRecords(tagsOf, e)))
      {
        var out := ModelsOfEntry(entries[i], tagsOf, bound);
        if out.Raised? {
          return Raised;
        }
        var recs := out.models;
        MapSeqAppend(entries[..i], entries[i], e => EntryRecords(tagsOf, e));
        FlattenAppend(MapSeq(entries[..i], e => EntryRecords(tagsOf, e)), [recs]);
        assert Flatten([recs]) == recs + [];
        assert entries[..i + 1] == entries[..i] + [entries[i]];
        models := models + recs;
        bound := bound || entries[i].Entry?;
        i := i + 1;
      }
      assert entries[..i] == entries;
      return Returned(models);
    }

    /**
     * The body of the loop over the listing: the tag loop of one entry;
     * `bound` says whether `name` was assigned by an earlier entry.
     */
    method ModelsOfEntry(e: ListingEntry, tagsOf: string -> Option<seq<(string, TagInfo)>>, bound: bool)
      returns (out: Outcome)
      ensures out == EntryOutcome(tagsOf, e, bound)
    {
      if e.NotADict? {
        if !bound {
          return Raised;
        }
        return Returned([]);
      }
      if e.name.None? || e.name.value == [] {
        return Returned([]);
      }
      var name := e.name.value;
      var tags := tagsOf(name);
      if tags.None? {
        return Returned([]);
      }
      var recs := [];
      var j := 0;
      while j < |tags.value|
        invariant 0 <= j <= |tags.value|
        invariant recs == MapSeq(tags.value[..j], (t: (string, TagInfo)) => RecordOf(name, t.0, t.1))
      {
        var t := tags.value[j];
        MapSeqAppend(tags.value[..j], t, (t: (string, TagInfo)) => RecordOf(name, t.0, t.1));
        assert tags.value[..j + 1] == tags.value[..j] + [t];
        recs := recs + [RecordOf(name, t.0, t.1)];
        j := j + 1;
      }
      assert tags.value[..j] == tags.value;
      return Returned(recs);
    }

    /**
     * `save_models_to_file(path)`: the records written, and whether it
     * reports success; `writeSucceeds` is whether opening and writing the
     * file succeeds. An exception from `get_models` is caught: False, and
     * nothing is written.
     */
    method SaveModelsToFile(listing: Option<Listing>, tagsOf: string -> Option<seq<(string, TagInfo)>>,
                            writeSucceeds: bool)
      returns (ok: bool, written: Option<seq<ModelRecord>>)
      ensures ok <==> writeSucceeds && ModelsOf(listing, tagsOf).Returned?
      ensures ok ==> written == Some(ModelsOf(listing, tagsOf).models)
      ensures !ok ==> written.None?
    {
      var result := GetModels(listing, tagsOf);
      if result.Raised? || !writeSucceeds {
        return false, None;
      }
      return true, Some(result.models);
    }
  }

  /** The result of `update_ollama_models_cache`, and the file it writes and its records when it writes one. */
  datatype CacheUpdate = CacheUpdate(ok: bool, written: Option<(string, seq<ModelRecord>)>)

  /** `~/.getllm/cache/ollama_models.json` for the home directory `home`. */
  function DefaultCachePath(home: string): string {
    home + "/.getllm/cache/ollama_models.json"
  }

  /**
   * `update_ollama_models_cache(file_path)`: without a path it writes to the
   * default cache file under `home`. An exception from `get_models` or an
   * empty list reports failure and writes nothing; otherwise the result is
   * whether the write succeeds.
   */
  method UpdateOllamaModelsCache(filePath: Option<string>, home: string, listing: Option<Listing>,
                                 tagsOf: string -> Option<seq<(string, TagInfo)>>, writeSucceeds: bool)
    returns (u: CacheUpdate)
    ensures ModelsOf(listing, tagsOf).Raised? ==> u == CacheUpdate(false, None)
    ensures ModelsOf(listing, tagsOf) == Returned([]) ==> u == CacheUpdate(false, None)
    ensures ModelsOf(listing, tagsOf).Returned? && ModelsOf(listing, tagsOf).models != [] && !writeSucceeds ==>
      u == CacheUpdate(false, None)
    ensures ModelsOf(listing, tagsOf).Returned? && ModelsOf(listing, tagsOf).models != [] && writeSucceeds ==>
      u == CacheUpdate(true, Some((filePath.GetOr(DefaultCachePath(home)), ModelsOf(listing, tagsOf).models)))
  {
    var path := if filePath.Some? then filePath.value else DefaultCachePath(home);
    var scraper := new Scraper(None);
    var result := scraper.GetModels(listing, tagsOf);
    if result.Raised? {
      return CacheUpdate(false, None);
    }
    var models := result.models;
    if models == [] {
      return CacheUpdate(false, None);
    }
    if !writeSucceeds {
      return CacheUpdate(false, None);
    }
    return CacheUpdate(true, Some((path, models)));
  }

  /** A successful cache update writes at least one record, each a named Ollama record. */
  lemma CacheWritesNamedRecords(listing: Option<Listing>, tagsOf: string -> Option<seq<(string, TagInfo)>>,
                                r: ModelRecord)
    requires ModelsOf(listing, tagsOf).Returned? && r in ModelsOf(listing, tagsOf).models
    ensures listing.Some? && listing.value.Entries?
    ensures r.name != [] && r.source == "ollama" && r.url == "https://ollama.ai/library/" + r.name
  {
    ModelsNamed(listing.value.entries, tagsOf, r);
    var entries := listing.value.entries;
    UrlOfRecords(entries, tagsOf, r);
  }

  lemma {:induction false} UrlOfRecords(entries: seq<ListingEntry>, tagsOf: string -> Option<seq<(string, TagInfo)>>,
                                        r: ModelRecord)
    requires r in Flatten(MapSeq(entries, e => EntryRecords(tagsOf, e)))
    ensures r.url == "https://ollama.ai/library/" + r.name
  {
    var rs := EntryRecords(tagsOf, entries[0]);
    assert MapSeq(entries, e => EntryRecords(tagsOf, e)) ==
      [rs] + MapSeq(entries[1..], e => EntryRecords(tagsOf, e));
    if r in rs {
      var name := NameOf(entries[0]).value;
      var k :| 0 <= k < |rs| && rs[k] == r;
      MapSeqAt(tagsOf(name).value, (t: (string, TagInfo)) => RecordOf(name, t.0, t.1), k);
    } else {
      UrlOfRecords(entries[1..], tagsOf, r);
    }
  }
}
