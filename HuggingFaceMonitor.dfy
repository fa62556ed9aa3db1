/**
 * The polling monitor of coding models on Hugging Face: the test that
 * decides whether a model is about code, the CSRF token read from the home
 * page, the request headers built from it, the detail loop over the first
 * fifty coding models, and the guard of the snapshot writer.
 */
module HuggingFaceMonitor {
  import opened Wrappers
  import opened Text
  import opened Seqs

  /** The tags and name fragments that mark a model as being about code, one constant per row of the source list. */
  const CodingRow1: seq<string> := ["code", "coding", "programming", "python", "javascript", "java", "c++", "c#", "go", "rust"]
  const CodingRow2: seq<string> := ["typescript", "ruby", "php", "swift", "kotlin", "scala", "haskell", "ocaml", "lua", "perl"]
  const CodingRow3: seq<string> := ["programming-language", "code-generation", "code-completion", "code-search", "code-search-net"]
  const CodingRow4: seq<string> := ["code-translation", "code2vec", "codebert", "codet5", "codegen", "incoder", "polycoder"]
  const CodingRow5: seq<string> := ["star-coder", "wizardcoder", "llama-coder", "replit-code", "codegpt", "codex", "copilot"]
  const CodingRow6: seq<string> := ["github-copilot", "santacoder", "bigcode", "code-llama", "deepseek-coder", "starcoder"]
  const CodingRow7: seq<string> := ["wizardlm", "phind-codellama", "magicoder", "deepseek-ai", "codefuse-ai", "codebooga"]
  const CodingRow8: seq<string> := ["codeup-llm", "codegeex", "codegpt2", "codegpt-java", "codegpt-js", "codegpt-py"]
  const CodingRow9: seq<string> := ["codegpt-rb", "codegpt-ts", "codegpt2-python", "codegpt2-java", "codegpt2-javascript"]
  const CodingRow10: seq<string> := ["codegpt2-typescript", "codegpt2-ruby", "codegpt2-php", "codegpt2-go", "codegpt2-rust"]
  const CodingRow11: seq<string> := ["codegpt2-cpp", "codegpt2-csharp", "codegpt2-swift", "codegpt2-kotlin", "codegpt2-scala"]
  const CodingRow12: seq<string> := ["codegpt2-haskell", "codegpt2-ocaml", "codegpt2-lua", "codegpt2-perl"]

  const CodingTags: seq<string> := CodingRow1 + CodingRow2 + CodingRow3 + CodingRow4 + CodingRow5 + CodingRow6 + CodingRow7 +
    CodingRow8 + CodingRow9 + CodingRow10 + CodingRow11 + CodingRow12

  /** A JSON tag: a string, or any other JSON value. */
  datatype Tag = StrTag(text: string) | OtherTag

  /** One record of the models-llm API; `None` is a missing key. */
  datatype HfEntry = HfEntry(
    modelId: Option<string>,
    author: Option<string>,
    description: Option<string>,
    downloads: Option<int>,
    likes: Option<int>,
    tags: Option<seq<Tag>>,
    pipelineTag: Option<string>,
    lastModified: Option<string>,
    cardData: Option<map<string, string>>)

  /** `any(isinstance(tag, str) and any(c in tag.lower() for c in CODING_TAGS) for tag in tags)` */
  function AnyTagCoding(tags: seq<Tag>): bool {
    tags != [] && ((tags[0].StrTag? && AnyIn(Lower(tags[0].text), CodingTags)) || AnyTagCoding(tags[1..]))
  }

  lemma {:induction false} AnyTagCodingIff(tags: seq<Tag>)
    ensures AnyTagCoding(tags) <==> exists i :: 0 <= i < |tags| && tags[i].StrTag? && AnyIn(Lower(tags[i].text), CodingTags)
  {
    if tags != [] {
      AnyTagCodingIff(tags[1..]);
      assert forall i :: 1 <= i < |tags| ==> tags[i] == tags[1..][i - 1];
    }
  }

  /** `is_coding_related`: the model id, then the string tags, then the description. */
  function IsCodingRelated(e: HfEntry): bool {
    AnyIn(Lower(e.modelId.GetOr("")), CodingTags) ||
    AnyTagCoding(e.tags.GetOr([])) ||
    AnyIn(Lower(e.description.GetOr("")), CodingTags)
  }

  /** A coding tag occurs in `text`. */
  predicate MentionsCode(text: string) {
    exists c :: c in CodingTags && Contains(text, c)
  }

  /**
   * A model is about code exactly when a coding tag occurs in its lower-cased
   * id, in one of its lower-cased string tags, or in its lower-cased
   * description; tags that are not strings are never looked at.
   */
  lemma IsCodingRelatedIff(e: HfEntry)
    ensures IsCodingRelated(e) <==>
      MentionsCode(Lower(e.modelId.GetOr(""))) ||
      (exists i :: 0 <= i < |e.tags.GetOr([])| && e.tags.GetOr([])[i].StrTag? && MentionsCode(Lower(e.tags.GetOr([])[i].text))) ||
      MentionsCode(Lower(e.description.GetOr("")))
  {
    AnyInIff(Lower(e.modelId.GetOr("")), CodingTags);
    AnyInIff(Lower(e.description.GetOr("")), CodingTags);
    AnyTagCodingIff(e.tags.GetOr([]));
    var tags := e.tags.GetOr([]);
    forall i | 0 <= i < |tags| && tags[i].StrTag?
      ensures AnyIn(Lower(tags[i].text), CodingTags) <==> MentionsCode(Lower(tags[i].text))
    {
      AnyInIff(Lower(tags[i].text), CodingTags);
    }
  }

  /** Every coding tag has at least one character. */
  lemma CodingTagsNonEmpty()
    ensures "" !in CodingTags
  {
    assert "" !in CodingRow1;
    assert "" !in CodingRow2;
    assert "" !in CodingRow3;
    assert "" !in CodingRow4;
    assert "" !in CodingRow5;
    assert "" !in CodingRow6;
    assert "" !in CodingRow7;
    assert "" !in CodingRow8;
    assert "" !in CodingRow9;
    assert "" !in CodingRow10;
    assert "" !in CodingRow11;
    assert "" !in CodingRow12;
  }

  /** Missing fields count as empty, and nothing is found in an empty text. */
  lemma EmptyEntryNotCoding(author: Option<string>, downloads: Option<int>, likes: Option<int>, pipelineTag: Option<string>,
                            lastModified: Option<string>, cardData: Option<map<string, string>>)
    ensures !IsCodingRelated(HfEntry(None, author, None, downloads, likes, None, pipelineTag, lastModified, cardData))
  {
    AnyInIff("", CodingTags);
    CodingTagsNonEmpty();
  }

  const CsrfMarker := "<meta name=\"csrf-token\""
  const CsrfPrefix := CsrfMarker + " content=\""

  /** The outcome of the token extraction: no marker, a token, or an `IndexError` when the marker lacks the `content` part. */
  datatype CsrfToken = NoToken | Token(value: string) | Malformed

  /** `text.split(sep)[1]`: the text between the first and the second occurrence of `sep`, if any. */
  function SecondPiece(text: string, sep: string): Option<string>
    requires sep != []
  {
    match IndexFrom(text, sep, 0)
    case None => None
    case Some(i) =>
      var rest := text[i + |sep|..];
      match IndexFrom(rest, sep, 0)
      case Some(j) => Some(rest[..j])
      case None => Some(rest)
  }

  /** `s.split('"')[0]`: everything before the first '"'. */
  function BeforeQuote(s: string): (r: string)
    ensures |r| <= |s| && r == s[..|r|] && '"' !in r
    ensures |r| < |s| ==> s[|r|] == '"'
  {
    if s == [] || s[0] == '"' then [] else [s[0]] + BeforeQuote(s[1..])
  }

  /** The CSRF step of `scrape_hf_models`. */
  function CsrfOf(page: string): (t: CsrfToken)
    ensures !Contains(page, CsrfMarker) ==> t == NoToken
  {
    if !Contains(page, CsrfMarker) then NoToken
    else
      match SecondPiece(page, CsrfPrefix)
      case None => Malformed
      case Some(rest) => Token(BeforeQuote(rest))
  }

  /** The first occurrence of the prefix is found where it is. */
  lemma FirstPrefixAt(page: string, i: nat)
    requires i <= |page| && StartsWith(page[i..], CsrfPrefix)
    requires forall j :: 0 <= j < i ==> !StartsWith(page[j..], CsrfPrefix)
    ensures IndexFrom(page, CsrfPrefix, 0) == Some(i)
    ensures Contains(page, CsrfMarker)
  {
    assert page[i..][..|CsrfMarker|] == CsrfPrefix[..|CsrfMarker|] == CsrfMarker;
    ContainsAt(page, CsrfMarker, i);
  }

  /**
   * With the marker present, the token is what follows the first
   * `content="` prefix, up to the next '"' or the next such prefix.
   */
  lemma CsrfTokenBetween(page: string, i: nat)
    requires i <= |page| && StartsWith(page[i..], CsrfPrefix)
    requires forall j :: 0 <= j < i ==> !StartsWith(page[j..], CsrfPrefix)
    ensures CsrfOf(page).Token?
    ensures var v := CsrfOf(page).value;
      var rest := page[i + |CsrfPrefix|..];
      '"' !in v && StartsWith(rest, v) &&
      (|v| < |rest| ==> rest[|v|] == '"' || StartsWith(rest[|v|..], CsrfPrefix))
  {
    FirstPrefixAt(page, i);
    var rest := page[i + |CsrfPrefix|..];
    var piece := SecondPiece(page, CsrfPrefix).value;
    var v := BeforeQuote(piece);
    assert CsrfOf(page) == Token(v);
    match IndexFrom(rest, CsrfPrefix, 0)
    case Some(j) =>
      assert piece == rest[..j];
      if |v| == |piece| {
        assert rest[|v|..] == rest[j..];
      }
    case None =>
      assert piece == rest;
  }

  /** The marker without the `content="` part raises, and the scrape then returns nothing. */
  lemma MarkerWithoutContent(page: string)
    requires Contains(page, CsrfMarker)
    requires forall j :: 0 <= j <= |page| ==> !StartsWith(page[j..], CsrfPrefix)
    ensures CsrfOf(page) == Malformed
  {
  }

  /** The headers of the API request; the token header is added only for a non-empty token. */
  function RequestHeaders(t: CsrfToken): (h: map<string, string>)
    requires !t.Malformed?
    ensures "X-CSRF-Token" in h <==> t.Token? && t.value != []
    ensures "X-CSRF-Token" in h ==> h["X-CSRF-Token"] == t.value
    ensures "Content-Type" in h && "X-Requested-With" in h
    ensures h["Content-Type"] == "application/json" && h["X-Requested-With"] == "XMLHttpRequest"
  {
    var base := map["Content-Type" := "application/json", "Referer" := SearchUrl, "X-Requested-With" := "XMLHttpRequest"];
    if t.Token? && t.value != [] then base["X-CSRF-Token" := t.value] else base
  }

  const BaseUrl := "https://huggingface.co"
  const SearchUrl := BaseUrl + "/models-llm"
  const DetailCap := 50

  /** The parts of the detail response that are kept; `None` is a missing key. */
  datatype Details = Details(siblings: Option<seq<string>>, config: Option<map<string, string>>, modelType: Option<string>)

  /** One model of the snapshot. */
  datatype CodingModel = CodingModel(
    id: string,
    author: Option<string>,
    downloads: int,
    likes: int,
    tags: seq<Tag>,
    pipelineTag: string,
    lastModified: Option<string>,
    cardData: map<string, string>,
    siblings: seq<string>,
    config: map<string, string>,
    modelType: string,
    scrapedAt: string)

  /** A coding model whose detail request succeeded: its non-empty id, its API entry and its details. */
  datatype Fetched = Fetched(id: string, entry: HfEntry, details: Details)

  /** The record built from a fetched model, stamped with the clock reading `at`. */
  function ModelInfo(f: Fetched, at: string): CodingModel {
    var e := f.entry;
    var d := f.details;
    CodingModel(f.id, e.author, e.downloads.GetOr(0), e.likes.GetOr(0), e.tags.GetOr([]),
      e.pipelineTag.GetOr(""), e.lastModified, e.cardData.GetOr(map[]),
      d.siblings.GetOr([]), d.config.GetOr(map[]), d.modelType.GetOr(""), at)
  }

  /**
   * Each key of `model_info`: the entry's `author` and `lastModified` as
   * they are (`None` when missing), downloads and likes 0, tags [],
   * pipeline tag '', card data {} by default; siblings [], config {} and
   * model type '' from the details by default; and the clock reading.
   */
  lemma ModelInfoFields(f: Fetched, at: string)
    ensures var m := ModelInfo(f, at);
      m.id == f.id && m.author == f.entry.author && m.lastModified == f.entry.lastModified &&
      m.downloads == f.entry.downloads.GetOr(0) && m.likes == f.entry.likes.GetOr(0) &&
      m.tags == f.entry.tags.GetOr([]) && m.pipelineTag == f.entry.pipelineTag.GetOr("") &&
      m.cardData == f.entry.cardData.GetOr(map[]) &&
      m.siblings == f.details.siblings.GetOr([]) && m.config == f.details.config.GetOr(map[]) &&
      m.modelType == f.details.modelType.GetOr("") && m.scrapedAt == at
  {
  }

  /**
   * The detail step for one coding model: skipped without a `modelId` or
   * with an empty one, and when the detail request raises (`None`).
   */
  function Detailed(details: string -> Option<Details>): HfEntry -> Option<Fetched> {
    (e: HfEntry) =>
      if e.modelId.None? || e.modelId.value == [] then None
      else if details(e.modelId.value).None? then None
      else Some(Fetched(e.modelId.value, e, details(e.modelId.value).value))
  }

  /**
   * The records of the fetched models, in order; `clock(k)` is what
   * `datetime.now().isoformat()` reads when the k-th record is built.
   */
  function Stamped(fs: seq<Fetched>, clock: nat -> string, k: nat): (ms: seq<CodingModel>)
    ensures |ms| == |fs|
    decreases |fs|
  {
    if fs == [] then [] else [ModelInfo(fs[0], clock(k))] + Stamped(fs[1..], clock, k + 1)
  }

  /** The j-th record is built from the j-th fetched model with the clock reading taken for it. */
  lemma {:induction false} StampedAt(fs: seq<Fetched>, clock: nat -> string, k: nat, j: nat)
    requires j < |fs|
    ensures Stamped(fs, clock, k)[j] == ModelInfo(fs[j], clock(k + j))
    decreases |fs|
  {
    if j > 0 {
      StampedAt(fs[1..], clock, k + 1, j - 1);
    }
  }

  /** Building one more record appends it, stamped with the next clock reading. */
  lemma {:induction false} StampedAppend(fs: seq<Fetched>, f: Fetched, clock: nat -> string, k: nat)
    ensures Stamped(fs + [f], clock, k) == Stamped(fs, clock, k) + [ModelInfo(f, clock(k + |fs|))]
    decreases |fs|
  {
    if fs == [] {
      assert fs + [f] == [f];
    } else {
      assert (fs + [f])[0] == fs[0] && (fs + [f])[1..] == fs[1..] + [f];
      StampedAppend(fs[1..], f, clock, k + 1);
    }
  }

  /** One step of the detail loop: the model at `i` adds its record exactly when it is fetched. */
  lemma DetailStep(batch: seq<HfEntry>, i: nat, fetch: HfEntry -> Option<Fetched>, clock: nat -> string,
                   detailed: seq<CodingModel>)
    requires i < |batch| && detailed == Stamped(FilterMap(batch[..i], fetch), clock, 0)
    ensures fetch(batch[i]).None? ==> detailed == Stamped(FilterMap(batch[..i + 1], fetch), clock, 0)
    ensures fetch(batch[i]).Some? ==>
      detailed + [ModelInfo(fetch(batch[i]).value, clock(|detailed|))] == Stamped(FilterMap(batch[..i + 1], fetch), clock, 0)
  {
    var fs := FilterMap(batch[..i], fetch);
    FilterMapAppend(batch[..i], batch[i], fetch);
    assert batch[..i + 1] == batch[..i] + [batch[i]];
    if fetch(batch[i]).Some? {
      var f := fetch(batch[i]).value;
      assert FilterMap(batch[..i + 1], fetch) == fs + [f];
      StampedAppend(fs, f, clock, 0);
      assert |fs| == |detailed|;
    } else {
      assert FilterMap(batch[..i + 1], fetch) == fs + [];
      assert fs + [] == fs;
    }
  }

  /** The detail loop over `coding_models[:50]`. */
  method DetailModels(coding: seq<HfEntry>, details: string -> Option<Details>, clock: nat -> string)
    returns (detailed: seq<CodingModel>)
    ensures detailed == Stamped(FilterMap(SliceTo(coding, DetailCap), Detailed(details)), clock, 0)
  {
    var batch := SliceTo(coding, DetailCap);
    detailed := [];
    var i := 0;
    while i < |batch|
      invariant 0 <= i <= |batch|
      invariant detailed == Stamped(FilterMap(batch[..i], Detailed(details)), clock, 0)
    {
      var e := batch[i];
      DetailStep(batch, i, Detailed(details), clock, detailed);
      if e.modelId.Some? && e.modelId.value != [] {
        var d := details(e.modelId.value);
        if d.Some? {
          var f := Fetched(e.modelId.value, e, d.value);
          assert Detailed(details)(e) == Some(f);
          detailed := detailed + [ModelInfo(f, clock(|detailed|))];
        } else {
          assert Detailed(details)(e).None?;
        }
      } else {
        assert Detailed(details)(e).None?;
      }
      i := i + 1;
    }
    assert batch[..i] == batch;
  }

  /**
   * `scrape_hf_models`: `home` is the home page (`None` when the request
   * failed), `api` the `models` list the API answers to the given headers
   * (`None` when it failed; a missing key is the empty list), `details` the
   * detail request per model id, `clock` the clock reading per record built.
   */
  method ScrapeHfModels(home: Option<string>, api: map<string, string> -> Option<seq<HfEntry>>,
                        details: string -> Option<Details>, clock: nat -> string)
    returns (models: seq<CodingModel>)
    ensures home.None? ==> models == []
    ensures home.Some? && CsrfOf(home.value).Malformed? ==> models == []
    ensures home.Some? && !CsrfOf(home.value).Malformed? ==>
      var answer := api(RequestHeaders(CsrfOf(home.value)));
      (answer.None? ==> models == []) &&
      (answer.Some? ==>
        models == Stamped(FilterMap(SliceTo(Filter(answer.value, IsCodingRelated), DetailCap), Detailed(details)), clock, 0))
  {
    if home.None? {
      return [];
    }
    var token := CsrfOf(home.value);
    if token.Malformed? {
      return [];
    }
    var answer := api(RequestHeaders(token));
    if answer.None? || answer.value == [] {
      return [];
    }
    var coding := Filter(answer.value, IsCodingRelated);
    models := DetailModels(coding, details, clock);
  }

  /** The snapshot holds only coding models with a non-empty id. */
  lemma ScrapedModelsAreCoding(entries: seq<HfEntry>, details: string -> Option<Details>, clock: nat -> string,
                               m: CodingModel)
    requires m in Stamped(FilterMap(SliceTo(Filter(entries, IsCodingRelated), DetailCap), Detailed(details)), clock, 0)
    ensures m.id != []
    ensures exists e :: e in entries && IsCodingRelated(e) && e.modelId == Some(m.id)
  {
    var batch := SliceTo(Filter(entries, IsCodingRelated), DetailCap);
    var fs := FilterMap(batch, Detailed(details));
    var j :| 0 <= j < |fs| && Stamped(fs, clock, 0)[j] == m;
    StampedAt(fs, clock, 0, j);
    ModelInfoFields(fs[j], clock(j));
    FilterMapFrom(batch, Detailed(details), fs[j]);
    var e :| e in batch && Detailed(details)(e) == Some(fs[j]);
    assert e in Filter(entries, IsCodingRelated);
  }

  /** At most fifty models are scraped. */
  lemma ScrapeCap(entries: seq<HfEntry>, details: string -> Option<Details>, clock: nat -> string)
    ensures |Stamped(FilterMap(SliceTo(Filter(entries, IsCodingRelated), DetailCap), Detailed(details)), clock, 0)| <= DetailCap
  {
  }

  const HfOutputDir := "huggingface_models_data"

  function HfSnapshotName(timestamp: string): string {
    HfOutputDir + "/huggingface_coding_models_" + timestamp + ".json"
  }

  /** `save_models_data`: the file written, if any; an empty list is refused before anything is written. */
  function SaveCodingModels(models: seq<CodingModel>, timestamp: string, writeSucceeds: bool): (file: Option<string>)
    ensures file.Some? <==> models != [] && writeSucceeds
    ensures file.Some? ==> file.value == HfSnapshotName(timestamp)
  {
    if models == [] || !writeSucceeds then None else Some(HfSnapshotName(timestamp))
  }
}
