# getllm catalogue and text helpers in Dafny

This project models the logic of getllm, a command-line tool that finds, installs and manages large language models for the Ollama runtime and the Hugging Face hub. It covers what decides behaviour once the network, the browser, subprocesses and the terminal are taken away:

- how scraped cards and API records become model dictionaries, and how those are de-duplicated, filtered, counted and fingerprinted;
- how the catalogue facade merges its two sources, tags records and falls back when a cache is missing;
- the small state of the model manager;
- the text rewriters: prompt templates and code-fence extraction, the `OLLAMA_MODEL=` line of `.env`, the version bump of the build scripts, and the import rewrite.

Each core source file has one module:

| module | source file |
|---|---|
| `CodegenCli` | getllm_cli.py |
| `OllamaLibraryScraper` | getllm/OllamaModelsScraper.py |
| `OllamaMonitor` | ollama_model_monitor.py |
| `HuggingFaceSearch` | models/huggingface.py |
| `HuggingFaceMonitor` | huggingface_model_monitor.py |
| `PyllmModels` | pyllm/models.py |
| `CliModels` | cli/utils/models.py |
| `CatalogFacade` | getllm/models/__init__.py |
| `OllamaClient` | ollama/api/client.py |
| `OllamaApiScraper` | getllm/scrapers/ollama_scraper.py |
| `ModelManager` | models/manager.py |
| `BuildAndPublish` | build_and_publish.py |
| `BuildVersion` | build.py |
| `UpdateImports` | update_imports.py |

Four shared modules support them:

- `Wrappers`: `Option` and the result of reading a file (`NoFile`, `Unparsable`, `Parsed`).
- `Text`: the Python string operations used (`lower`, `strip`, `in`, `split`, `replace`, number formatting).
- `Seqs`: filter, map, flatten, slicing with Python semantics, and first-occurrence de-duplication.
- `Sorting`: a stable sort by key.

Whatever the program gets from outside becomes a parameter:

- a page, API answer or file appears as a value;
- `None` stands for a failed request or a missing file;
- `Raised` stands for an exception that escapes;
- the manager's installed check is a predicate.

Loops that build lists in the source are methods with loop invariants. Each is proved equal to a specification function, and the properties are lemmas about those functions. The Ollama library scraper and the model manager update fields of an object, so they are classes.

Three behaviours of the code shape the catalogue:

- De-duplication keeps the first record seen for a `name_url` key.
- The scrapers' key is `name + "_" + url`.
- The Hugging Face cache is used as it is read, with no staleness test.

## Model

| member | source | states |
|---|---|---|
| CodegenCli.KindOf | getllm_cli.py:14-59 | an unknown template name selects the basic template, and the basic template is chosen exactly for "basic" or an unknown name |
| CodegenCli.Render | getllm_cli.py:71 | when `str.format` fails, the key it reports is a placeholder of the template that the arguments lack |
| CodegenCli.RenderFailsIffMissing | getllm_cli.py:71 | formatting fails if and only if some placeholder of the template is missing from the arguments |
| CodegenCli.DependenciesLine | getllm_cli.py:62-68 | a non-empty `dependencies` argument becomes "Use the following dependencies: …", and a missing or empty one becomes "Use standard Python libraries." |
| CodegenCli.FormatArgs | getllm_cli.py:62-71 | the format arguments are the caller's keywords plus `prompt` and the rewritten `dependencies`; every other keyword passes through unchanged |
| CodegenCli.BasicTemplateExact | getllm_cli.py:15-71 | the basic template (and any unknown name) renders to exactly the fixed task sentence followed by the prompt |
| CodegenCli.DependenciesTemplateEnding | getllm_cli.py:17-71 | every template except basic and debug renders, and its text ends with the dependencies line (platform_aware also needs `platform`) |
| CodegenCli.KindEndsWithDependencies | getllm_cli.py:17-44 | the five dependency-mentioning templates render with `prompt` and `dependencies` and end with the dependencies value |
| CodegenCli.RenderEndsWithDependencies | getllm_cli.py:71 | a template whose last piece is the `{dependencies}` field and whose fields are all supplied renders to text that ends with that value |
| CodegenCli.RenderEndsWithLastField | getllm_cli.py:71 | when a template ending in a field renders, the field was supplied and the text ends with its value |
| CodegenCli.DebugTemplateNeedsCode | getllm_cli.py:46-71 | the debug template without a `code` argument fails with the missing key `code` |
| CodegenCli.FencedBlock | getllm_cli.py:149-150 | the regex's first match lies between the first fence and the next fence after it, and there is none exactly when no two non-overlapping fences exist |
| CodegenCli.NoFenceAtAll | getllm_cli.py:149-152 | a text with no fence holds no code block |
| CodegenCli.NoSecondFence | getllm_cli.py:149-152 | a text whose only fence is not followed by a second one holds no code block |
| CodegenCli.ExtractPythonCode | getllm_cli.py:141-167 | text that already looks like code is returned whole; otherwise the first fenced block, stripped and without the `python` tag; otherwise the hello-world program when the text mentions one; otherwise the warning header followed by the text |
| CodegenCli.FallbackKeepsOriginal | getllm_cli.py:160-167 | when nothing can be extracted, the result ends with the original response |
| CodegenCli.MockIntegration.QueryOllama | getllm_cli.py:79-135 | the mock answers "hello world" prompts with the hello-world line and "binary search tree" prompts with the tree example (in any case, hello world first), and anything else with a mock line quoting the prompt |
| CodegenCli.MockIntegration.ExtractPythonCode | getllm_cli.py:137-139 | the mock's extraction returns its input character for character |
| CodegenCli.NewMockIntegration | getllm_cli.py:76-77 | the mock keeps a given non-empty model name and otherwise uses "mock-model" |
| OllamaLibraryScraper.FirstWithIsFirst | getllm/OllamaModelsScraper.py:103-105 | `next(…, default)` gives the first metadata line that passes the test, or the default when none does |
| OllamaLibraryScraper.CardModelFields | getllm/OllamaModelsScraper.py:84-132 | a card without an `h3` or an `a` element gives no model; otherwise the model holds the stripped name, the link, the first paragraph, the first pulls, size and updated lines (with their defaults), source "ollama" and the pull command for the name |
| OllamaLibraryScraper.KeptTagsExactly | getllm/OllamaModelsScraper.py:107-113 | a tag is kept exactly when its stripped text is non-empty and is not one of "Ollama", "Model", "Library" |
| OllamaLibraryScraper.KeptTags | getllm/OllamaModelsScraper.py:108-113 | the tag loop keeps, in order, the stripped tag texts the test accepts; `ExtractModelInfo` runs it with `IsKeptTag` |
| OllamaLibraryScraper.ExtractModelInfo | getllm/OllamaModelsScraper.py:84-132 | the method builds the record the card specification `CardModel` gives, tags included |
| OllamaLibraryScraper.PageUrl | getllm/OllamaModelsScraper.py:138 | page 1 or lower uses the library address, a later page adds `?page=N` |
| OllamaLibraryScraper.ScrapeLibraryPage | getllm/OllamaModelsScraper.py:134-171 | at most five models; a failed load gives none; otherwise each of the first five cards that yields a model, in order |
| OllamaLibraryScraper.AddUnseen | getllm/OllamaModelsScraper.py:196-200 | the models whose `name_url` key has not been seen are appended in order, and all their keys become seen |
| OllamaLibraryScraper.ScrapeAllCategories | getllm/OllamaModelsScraper.py:181-204 | the result is the concatenation of the ten category searches with each key kept at its first occurrence |
| OllamaLibraryScraper.CategoriesDistinct | getllm/OllamaModelsScraper.py:188-204 | the merged list has distinct keys, and each model in it is the first one with its key |
| OllamaLibraryScraper.RequestedBound | getllm/OllamaModelsScraper.py:211-224 | the number of pages requested from a given page never passes page 50 |
| OllamaLibraryScraper.AtMostMaxPages | getllm/OllamaModelsScraper.py:213-215 | at most 50 pages are requested |
| OllamaLibraryScraper.PagesStopAtFirstEmpty | getllm/OllamaModelsScraper.py:215-218 | every page requested before the last one returned models |
| OllamaLibraryScraper.ScrapePages | getllm/OllamaModelsScraper.py:210-224 | the page loop's models are the pages' models in order up to the first empty page, and it requests at most 50 pages |
| OllamaLibraryScraper.MergeModels | getllm/OllamaModelsScraper.py:226-249 | the merge keeps the first model per key over pages then categories; with `detailed` it raises exactly when a kept model has a URL |
| OllamaLibraryScraper.MergeOne | getllm/OllamaModelsScraper.py:234-246 | one step of the merge loop: it raises exactly for an unseen model with a URL in detailed mode, and otherwise keeps the loop's result unchanged |
| OllamaLibraryScraper.PageModelsFirst | getllm/OllamaModelsScraper.py:230-246 | the merged list starts with the de-duplicated page models |
| OllamaLibraryScraper.LibraryScraper.constructor | getllm/OllamaModelsScraper.py:23-28 | the three addresses are set, the flag is kept and no models are stored |
| OllamaLibraryScraper.LibraryScraper.SearchLocalModels | getllm/OllamaModelsScraper.py:265-280 | no stored models gives no results; otherwise the stored models whose name, description or some tag contains the query, case-insensitively, in order |
| OllamaLibraryScraper.SearchExactly | getllm/OllamaModelsScraper.py:271-278 | the search loop (`Seqs.KeepWhere` with `MatchOf` on the lower-cased query) returns a model exactly when it is stored and matches the query |
| OllamaLibraryScraper.FreshSearchIsEmpty | getllm/OllamaModelsScraper.py:265-269 | a new scraper's local search finds nothing |
| OllamaLibraryScraper.CountTags | getllm/OllamaModelsScraper.py:316-318 | the counting loop adds one to each tag's count for each occurrence |
| OllamaLibraryScraper.TagCounts | getllm/OllamaModelsScraper.py:315-318 | the tag counts hold exactly the tags of the models, each with its number of occurrences |
| OllamaMonitor.MetadataHasKey | ollama_model_monitor.py:119-127 | a key is in the metadata exactly when some span with a colon yields it |
| OllamaMonitor.MetadataLastWins | ollama_model_monitor.py:123-127 | the metadata value of a key is the one from the last span that yields the key |
| OllamaMonitor.CollectMetadata | ollama_model_monitor.py:119-127 | no metadata `div` gives an empty dictionary, otherwise the dictionary built from its spans |
| OllamaMonitor.CollectTags | ollama_model_monitor.py:129-135 | tags are the non-empty tag texts that are not sizes, in order |
| OllamaMonitor.ModelUrl | ollama_model_monitor.py:99-103 | a link under `/library/` gives the full ollama.com address, anything else the empty string |
| OllamaMonitor.ExtractItem | ollama_model_monitor.py:86-146 | each list item gives the model its specification function describes |
| OllamaMonitor.ItemModelShape | ollama_model_monitor.py:86-146 | an item yields a model exactly when it has a non-empty `h2`; the model keeps that name, a non-empty description, sizes from the size spans and tags that are non-empty and not sizes |
| Seqs.KeepWhere | ollama_model_monitor.py:111-117 | the loop that appends the elements its test accepts returns, in order, exactly the elements that pass; `ExtractItem` runs it with `IsSizeText` (a non-empty text holding b, k, m or g in either case) and `SearchLocalModels` with `MatchOf` |
| OllamaMonitor.ScrapeModels | ollama_model_monitor.py:43-160 | a failed request gives no models; otherwise the models of the items that yield one, in order |
| OllamaMonitor.Fingerprint | ollama_model_monitor.py:162-189 | an empty list has no fingerprint, and a non-empty one has one entry per model |
| OllamaMonitor.FingerprintEntries | ollama_model_monitor.py:177-188 | the fingerprint entries are the canonical forms of the models (as a multiset), in non-decreasing order of lower-cased name, and models with the same lower-cased name keep their input order, as `sorted` is stable |
| OllamaMonitor.AlikeCanon | ollama_model_monitor.py:177-188 | two models that differ only in URL or in the order of sizes and tags have the same canonical form |
| OllamaMonitor.MapCanonAlike | ollama_model_monitor.py:177-188 | replacing each model by an alike one leaves the canonical forms unchanged |
| OllamaMonitor.FingerprintIgnoresUrlAndOrder | ollama_model_monitor.py:162-189 | the fingerprint does not change when URLs change or sizes and tags are reordered |
| OllamaMonitor.SaveModelsData | ollama_model_monitor.py:191-226 | no models gives nothing at all; otherwise the result carries the models' fingerprint, and the timestamped file, holding the models sorted by lower-cased name, is written exactly when that fingerprint differs from the previous one and the write succeeds |
| OllamaMonitor.SecondSaveWritesNothing | ollama_model_monitor.py:191-226 | saving the same models again with the fingerprint just returned writes nothing |
| HuggingFaceSearch.LastSegmentShape | models/huggingface.py:111 | `split('/')[-1]` is the longest suffix without a '/', and it is preceded by a '/' whenever it is shorter than the text |
| HuggingFaceSearch.WithGguf | models/huggingface.py:116 | the tags keep their order and gain "gguf" at the end exactly when they lack it |
| HuggingFaceSearch.Normalise | models/huggingface.py:108-117 | the record's id is its `modelId` (or "") and its tags are the API tags with "gguf" ensured |
| HuggingFaceSearch.NormaliseName | models/huggingface.py:110-111 | the name is a '/'-free suffix of the id, and is the whole id when the id has no '/' |
| HuggingFaceSearch.NormaliseAll | models/huggingface.py:107-117 | the loop normalises each API record, in order |
| HuggingFaceSearch.ApiUpdate | models/huggingface.py:103-123 | the API step succeeds exactly when the request succeeds with a non-empty list, and then caches one model per record |
| HuggingFaceSearch.Pool | models/huggingface.py:42-52 | after a successful update the reloaded cache is searched; after a failed one the stale cache, or the defaults when it is empty |
| HuggingFaceSearch.MatchesQuery | models/huggingface.py:59-62 | a model matches when its id, name, description or some tag contains the lower-cased query |
| HuggingFaceSearch.FilterByQuery | models/huggingface.py:55-64 | the filtering loop keeps exactly the matching models, in order |
| HuggingFaceSearch.SearchHuggingFaceModels | models/huggingface.py:29-74 | without a query the first `limit` models of the pool, with one the first `limit` matching ones; when an exception escapes, the defaults whose name or description contains the query |
| HuggingFaceSearch.SearchKeepsExactly | models/huggingface.py:55-66 | every result is a matching pool model, and when the limit covers the pool every matching model is a result |
| HuggingFaceSearch.SearchHonoursLimit | models/huggingface.py:66 | a search returns at most `limit` models |
| HuggingFaceSearch.FirstLabel | models/huggingface.py:190-198 | the label found is the first of 7b, 13b, 20b, 30b, 65b, 70b that the text contains, and none is found only when the text contains none |
| HuggingFaceSearch.FirstSizedIndex | models/huggingface.py:201-203 | the tag loop from a position stops at the first sized tag: the index found holds a sized tag and none between the start and it does, and no index is found only when no tag from the start is sized |
| HuggingFaceSearch.FirstSizedTag | models/huggingface.py:201-203 | the tag returned is the first one in the list that contains a 'b' (in either case) and a digit: it is sized and every tag before it is not; none is returned only when no tag is sized |
| HuggingFaceSearch.ExtractModelSizeExample | models/huggingface.py:186-192 | the name "Llama-7B" gives the size "7B" whatever the description and tags |
| HuggingFaceSearch.ExtractModelSizeOrder | models/huggingface.py:186-205 | the first label (in list order) found in the name wins, then the first label found in the description, then the first sized tag in list order, upper-cased; "Unknown" exactly when none of these exists |
| Text.AnyInIff | huggingface_model_monitor.py:63 | `any(tag in text for tag in CODING_TAGS)` holds exactly when some listed fragment occurs in the text |
| HuggingFaceMonitor.AnyTagCodingIff | huggingface_model_monitor.py:67-68 | the tag test holds exactly when some tag is a string whose lower-cased text contains a listed fragment; other JSON values never match |
| HuggingFaceMonitor.IsCodingRelatedIff | huggingface_model_monitor.py:59-76 | a model is about code exactly when its lower-cased `modelId`, one of its string tags or its lower-cased description contains a listed fragment |
| HuggingFaceMonitor.EmptyEntryNotCoding | huggingface_model_monitor.py:59-76 | an entry with no id, no tags and no description is not about code, since no listed fragment is empty |
| HuggingFaceMonitor.BeforeQuote | huggingface_model_monitor.py:93 | `split('"')[0]` is the longest quote-free prefix, stopped by a quote whenever it is shorter than the text |
| HuggingFaceMonitor.CsrfOf | huggingface_model_monitor.py:89-93 | a page without the csrf meta tag gives no token |
| HuggingFaceMonitor.FirstPrefixAt | huggingface_model_monitor.py:92-93 | the first full `content="` prefix found is the one at the first place it occurs, and the page then has the marker |
| HuggingFaceMonitor.CsrfTokenBetween | huggingface_model_monitor.py:92-93 | with a full prefix the token is the quote-free text right after its first occurrence, ended by a quote, the next prefix or the end of the page |
| HuggingFaceMonitor.MarkerWithoutContent | huggingface_model_monitor.py:92-93 | a marker without the `content="` part makes `split(…)[1]` raise (the `Malformed` outcome) |
| HuggingFaceMonitor.RequestHeaders | huggingface_model_monitor.py:96-103 | the headers always carry the JSON content type and the XMLHttpRequest marker, and carry the CSRF token exactly when a non-empty one was found |
| HuggingFaceMonitor.DetailModels | huggingface_model_monitor.py:139-177 | the detail loop looks at the first 50 coding models and builds, in order, one record for each with a non-empty id whose detail request succeeds; the k-th record carries the clock reading taken when it is built |
| HuggingFaceMonitor.ModelInfoFields | huggingface_model_monitor.py:153-166 | a record has the id, `author` and `lastModified` as given (None when missing), downloads and likes 0, tags [], pipeline tag '' and card data {} by default, siblings [], config {} and model type '' from the details by default, and the clock reading as `scraped_at` |
| HuggingFaceMonitor.StampedAt | huggingface_model_monitor.py:153-168 | the j-th record is built from the j-th fetched model with the j-th clock reading |
| HuggingFaceMonitor.DetailStep | huggingface_model_monitor.py:140-175 | one pass of the detail loop appends a record exactly when the model is fetched, stamped with the next clock reading, and otherwise leaves the records as they are |
| HuggingFaceMonitor.ScrapeHfModels | huggingface_model_monitor.py:78-184 | a failed home request, a malformed token or a failed search gives no models; otherwise the stamped records of the detailed coding models among the first 50 |
| HuggingFaceMonitor.ScrapedModelsAreCoding | huggingface_model_monitor.py:130-168 | every scraped model has a non-empty id that belongs to a coding-related entry of the search answer |
| HuggingFaceMonitor.ScrapeCap | huggingface_model_monitor.py:140 | at most 50 models are scraped |
| HuggingFaceMonitor.SaveCodingModels | huggingface_model_monitor.py:186-212 | a snapshot file is written exactly when there are models and the write succeeds, under the timestamped name |
| PyllmModels.Settings | pyllm/models.py:46-52 | the settings are those of `.env` when it exists, else those of `.env.example`, else none |
| PyllmModels.Setting | pyllm/models.py:45-63 | `env.get(key, default)` on the file in force: the value of `.env` when it exists, else that of `.env.example`, and the default when the file in force lacks the key or neither exists; `GetModelsDir` asks for `MODELS_DIR` with "./models", `GetDefaultModel` for `OLLAMA_MODEL` with "" |
| PyllmModels.LineLenShape | pyllm/models.py:71 | a line read from a file holds no '\n' before its end and ends with '\n' unless it is the last one |
| PyllmModels.LinesOfConcat | pyllm/models.py:71-80 | reading back lines that were written with `writelines` gives the same lines |
| PyllmModels.UniversalNoCr | pyllm/models.py:70-71 | reading in text mode turns "\r\n" and a lone "\r" into "\n", so the text read holds no "\r" |
| PyllmModels.UniversalKeeps | pyllm/models.py:70-71 | a text without "\r" is read as it is |
| PyllmModels.UniversalExample | pyllm/models.py:70-71 | the text "A=1\r\nB\r" is read as "A=1\nB\n", two terminated lines |
| PyllmModels.RewriteEnvLines | pyllm/models.py:69-76 | the loop replaces each line whose stripped form starts with `OLLAMA_MODEL=` by the new line, keeps every other line, and sets `found` exactly when such a line exists |
| PyllmModels.EnvLineIsModelLine | pyllm/models.py:73 | the written line is itself recognised as a model line |
| PyllmModels.ReplacedTwice | pyllm/models.py:69-76 | replacing the model lines twice gives what replacing them once gives |
| PyllmModels.ReplacedNoModelLine | pyllm/models.py:75-76 | lines without a model line are kept as they are |
| PyllmModels.HasModelLineAfter | pyllm/models.py:69-78 | after the rewrite, as written, the line list holds a model line |
| PyllmModels.RewriteIdempotent | pyllm/models.py:69-78 | on the list of lines, the rewrite as written is idempotent |
| PyllmModels.StripNewline | pyllm/models.py:72 | a trailing '\n' does not change a line's stripped form |
| PyllmModels.SetDefaultModelFile | pyllm/models.py:65-80 | the file written is the corrected rewrite of the lines read in text mode, with universal newlines (a missing file reads as empty) |
| PyllmModels.ReadBackRewrite | pyllm/models.py:65-80 | for a model name without line breaks, the file written reads back as exactly the rewritten lines |
| PyllmModels.SetDefaultModelIdempotent | pyllm/models.py:65-80 | with the corrected rewrite and a model name without line breaks, setting the same model a second time leaves the file unchanged |
| PyllmModels.SetDefaultModelSetsLine | pyllm/models.py:65-80 | with the corrected rewrite and a model name without line breaks, the file read back holds a model line |
| PyllmModels.AppendedWhenMissing | pyllm/models.py:77-80 | as written, a one-line file without a trailing '\n' and without a model line gets the new line glued to its end |
| PyllmModels.GluedLineNotModel | pyllm/models.py:72-78 | such a glued line is not a model line when read back |
| PyllmModels.GluedModelLine | pyllm/models.py:65-80 | as written, `A=1` without a newline becomes one line without a model line, and a second call appends again instead of leaving the file unchanged |
| PyllmModels.LoadModelsFromJson | pyllm/models.py:107-118 | a parsed file gives its list, and a missing or unparsable file gives the eleven default models |
| PyllmModels.EmptyFileIsNotDefaulted | pyllm/models.py:111-118 | a file holding an empty list gives no models, whereas a missing file gives the defaults |
| PyllmModels.MatchAtSound | pyllm/models.py:168 | a match of `(\d+(?:\.\d+)?)([bm])` at a position is digits, an optional fraction and a unit, covering exactly the matched text |
| PyllmModels.FindSizesSound | pyllm/models.py:168 | every match `re.findall` returns is well formed and occurs in the text |
| PyllmModels.FindSizesExample | pyllm/models.py:168 | "1.5b" gives one match 1.5 with unit b, and "7m" one match 7 with unit m |
| PyllmModels.CollectBlocks | pyllm/models.py:162-177 | the heading loop keeps, in page order, one block for each heading the per-heading test accepts; `UpdateModelsFromOllama` runs it with `BlockOf`, which accepts a heading whose name holds a coding keyword and that has a size |
| PyllmModels.FlattenBlocks | pyllm/models.py:183-190 | the nested loop writes one entry per block and size, in order |
| PyllmModels.UpdateModelsFromOllama | pyllm/models.py:142-196 | a failed request or no kept block writes nothing; otherwise the flattened entries are written |
| PyllmModels.KeptBlocksQualify | pyllm/models.py:164-177 | a kept block's name holds a coding keyword and each of its sizes is a match in billions of at most 7 |
| PyllmModels.EntriesPerSize | pyllm/models.py:183-190 | the entries of a block sit together, between those of the blocks before and after it |
| PyllmModels.NoBlocksNoWrite | pyllm/models.py:179-181 | when no heading qualifies, the file is not written |
| CliModels.DictType | cli/utils/models.py:54 | a dictionary's type is its `type`, else its `model_type`, else "N/A" |
| CliModels.DictDefaults | cli/utils/models.py:49-57 | a dictionary without a source is listed with source "unknown", its installed flag is the manager's answer for its id (or ""), and its type follows the fallback |
| CliModels.SizesCell | cli/utils/models.py:96-97 | no sizes give "N/A", and a single size is shown as it is |
| CliModels.CellsLayout | cli/utils/models.py:77-104 | each row has one cell per column: id, name, source, the sizes when shown, the type, and ✓ or ✗ |
| CliModels.FilterRows | cli/utils/models.py:34-66 | the loop turns each model into a row and keeps, in input order, the rows the filter accepts; `DisplayModels` runs it with `RowOf` and with `KeepOf`, the installed-only filter and the case-insensitive source filter |
| CliModels.TableRows | cli/utils/models.py:88-104 | the table loop adds one row of cells per selected row, in order |
| CliModels.DisplayModels | cli/utils/models.py:11-106 | no models gives "No models found."; no row left after the filters and the limit gives the no-match message; otherwise the table of the selected rows under the header |
| CliModels.SelectedExactly | cli/utils/models.py:59-70 | every shown row passes the filters and comes from an input model; without a limit, exactly those rows are shown; a limit caps the number of rows |
| CliModels.SourceFilterIgnoresCase | cli/utils/models.py:63-64 | two source filters that differ only in case keep the same rows |
| CliModels.InstallWithProgress | cli/utils/models.py:109-148 | without `force`, an installed model gives False and install is not called; otherwise install is called, and the result is True exactly when it returns True (an exception gives False) |
| CliModels.UninstallWithProgress | cli/utils/models.py:151-184 | a model that is not installed gives False and uninstall is not called; otherwise the result is True exactly when uninstall returns True |
| CatalogFacade.Tagged | getllm/models/__init__.py:40-47 | `{"source": S, **model}` has the model's keys plus `source`, keeps every model value, and a model's own `source` wins over the tag |
| CatalogFacade.GetModelsLayout | getllm/models/__init__.py:28-51 | the Hugging Face records come first and the Ollama records after them, each tagged with its source; a source that raised contributes nothing and the other is still returned |
| CatalogFacade.PartAt | getllm/models/__init__.py:40-47 | the tagged part of a source has one record per fetched record, at the same place |
| CatalogFacade.UpdateHfCache | getllm/models/__init__.py:62-83 | the cache update succeeds exactly when the fetch and the write both succeed, and then the cache holds the fetched records |
| CatalogFacade.LoadCache | getllm/models/__init__.py:129-163 | a missing or unparsable cache file gives [], a parsed one its records |
| CatalogFacade.CacheRoundTrip | getllm/models/__init__.py:62-145 | composing the contracts of the cache update and of the cache load: after a successful update, loading the file (taken as its parsed contents) gives back the fetched records |
| CatalogFacade.SearchHuggingFaceModels | getllm/models/__init__.py:165-181 | a search that raises gives [], otherwise the manager's answer |
| CatalogFacade.GetHuggingFaceModels | getllm/models/__init__.py:183-197 | an error gives []; otherwise a prefix of the available records, of length `limit` when it is non-negative and smaller than the list |
| CatalogFacade.NameCallsPerRecord | getllm/models/__init__.py:95-99 | when every record has a name, there is one metadata update per record, in order, keyed by its name |
| CatalogFacade.RecordUpdates | getllm/models/__init__.py:95-119 | the update loop succeeds exactly when every record has a `name`, and makes the updates up to the first record without one |
| CatalogFacade.UpdateModelsFromOllama | getllm/models/__init__.py:85-103 | True exactly when the fetch succeeds and every record has a name; the metadata updates are keyed by name with source "ollama" |
| CatalogFacade.UpdateModelsMetadata | getllm/models/__init__.py:105-127 | True exactly when the Hugging Face fetch succeeds and every record has a name; then the Hugging Face updates are followed by the Ollama ones, whose failure does not change the result |
| CatalogFacade.HfKey | getllm/models/__init__.py:215 | the metadata key is the record's `name`, else its `id`, else "" |
| CatalogFacade.UpdateModelsFromHuggingface | getllm/models/__init__.py:199-221 | always True, with one update per search result keyed by its name, id or "" (a failed search gives no updates) |
| CatalogFacade.HuggingfaceUpdatesPerRecord | getllm/models/__init__.py:213-217 | the i-th update belongs to the i-th search result |
| OllamaClient.StripSlashesShape | ollama/api/client.py:19 | `rstrip('/')` removes exactly the trailing '/' characters: the result is a prefix that does not end in '/', only '/' follows it, and stripping again changes nothing |
| OllamaClient.PayloadOf | ollama/api/client.py:53-69 | a payload holds exactly the fields that have a value, each with that value |
| OllamaClient.GeneratePayloadKeys | ollama/api/client.py:53-69 | the generate payload always has model, prompt, stream and raw, and has system, template, context, format and options exactly when each is given (an empty list counts as given) |
| OllamaClient.GeneratePayloadValues | ollama/api/client.py:53-69 | each field of the generate payload carries its argument |
| OllamaClient.ChatPayloadKeys | ollama/api/client.py:107-116 | the chat payload has model, messages and stream, and format and options exactly when each is given, each with its argument |
| OllamaClient.EmbeddingsPayloadKeys | ollama/api/client.py:150-156 | the embeddings payload has model and prompt, and options exactly when given |
| OllamaClient.StreamChunks | ollama/api/client.py:190-197 | the streaming loop skips empty lines and lines that are not JSON, yields the chunks of the others in order, and stops with `UnicodeDecodeError` at the first non-empty line that is not UTF-8 |
| OllamaClient.RaisesIffNotUtf8 | ollama/api/client.py:190-199 | the generator raises exactly when some non-empty line is not UTF-8; `UnicodeDecodeError` is not a `JSONDecodeError`, so it escapes |
| OllamaClient.Utf8Examples | ollama/api/client.py:193 | "é" as C3 A9 decodes, while FF, the overlong C0 80 and the surrogate ED A0 80 do not (section 4 of RFC 3629) |
| OllamaClient.AsciiIsUtf8 | ollama/api/client.py:193 | a line of ASCII bytes always decodes |
| OllamaClient.ChunksFromLines | ollama/api/client.py:190-194 | every chunk comes from a non-empty UTF-8 line that parses to it |
| OllamaClient.ChunksInOrder | ollama/api/client.py:190-197 | when the first run of lines raises, the lines after it are never read; otherwise the stream of two consecutive runs is the chunks of the first followed by the stream of the second |
| OllamaClient.Client.constructor | ollama/api/client.py:13-23 | the base URL, by default "http://localhost:11434/api", loses its trailing slashes, the three endpoints are built on it, and the timeout is the configured one, by default 30 |
| OllamaClient.Client.Generate | ollama/api/client.py:25-81 | `generate` posts the generate payload to the generate endpoint with the client's timeout, streamed exactly when `stream` is set |
| OllamaClient.Client.Chat | ollama/api/client.py:87-128 | `chat` posts the chat payload to the chat endpoint, streamed exactly when `stream` is set |
| OllamaClient.Client.Embeddings | ollama/api/client.py:134-165 | `embeddings` posts its payload to the embeddings endpoint and never streams |
| OllamaClient.Client.Send | ollama/api/client.py:71-201 | a streamed request gives the stream of its lines, a plain one the parsed body; a failed request or a body that is not JSON raises |
| OllamaApiScraper.FullName | getllm/scrapers/ollama_scraper.py:68 | the full name is `name:tag`, and just the name for the tag 'latest' |
| OllamaApiScraper.FirstColon | getllm/scrapers/ollama_scraper.py:68 | the index found is that of the first ':' |
| OllamaApiScraper.FullNameRoundTrip | getllm/scrapers/ollama_scraper.py:68 | for a name without ':', reading the full name back gives the name and the tag (a bare name reads back as 'latest') |
| OllamaApiScraper.RecordOf | getllm/scrapers/ollama_scraper.py:67-91 | a tag's record has the name, the tag, its full name, source 'ollama', the library URL of the name, size 0, digest '' and last_modified '' by default, and details exactly when the tag info has them |
| OllamaApiScraper.EntryRecordsPerTag | getllm/scrapers/ollama_scraper.py:55-91 | a named entry whose tag request succeeds gives one record per tag, the k-th for the k-th tag |
| OllamaApiScraper.EntryRecordsNamed | getllm/scrapers/ollama_scraper.py:57-59 | records only come from entries with a non-empty name, and carry that name |
| OllamaApiScraper.ModelsNamed | getllm/scrapers/ollama_scraper.py:54-97 | every record has a non-empty name and source 'ollama', and comes from an entry of the listing with that name |
| OllamaApiScraper.UrlOfRecords | getllm/scrapers/ollama_scraper.py:75 | every record's URL is "https://ollama.ai/library/" followed by its name |
| OllamaApiScraper.Scraper.constructor | getllm/scrapers/ollama_scraper.py:21-28 | a missing or empty `api_base` falls back to "https://ollama.ai" |
| OllamaApiScraper.Scraper.GetModels | getllm/scrapers/ollama_scraper.py:38-101 | a failed request or a response that is not a list gives []; a first entry that is not a dictionary raises (`UnboundLocalError` in the handler at line 94, since `name` was never bound); otherwise the records of the entries in order, one per tag |
| OllamaApiScraper.RaisesIffFirstNotDict | getllm/scrapers/ollama_scraper.py:55-95 | `get_models` raises exactly when the listing is a list whose first entry is not a dictionary; a later such entry gives no records, since `name` is still bound from the entry before |
| OllamaApiScraper.Scraper.ModelsOfEntry | getllm/scrapers/ollama_scraper.py:56-95 | one pass of the entry loop: an entry that is not a dictionary raises when no earlier entry bound `name` and gives nothing otherwise; a dictionary gives its records, one per tag |
| OllamaApiScraper.Scraper.SaveModelsToFile | getllm/scrapers/ollama_scraper.py:103-120 | the result is True exactly when `get_models` returns and the write succeeds, and then the file holds the models it returned; when `get_models` raises, the handler returns False and nothing is written |
| OllamaApiScraper.UpdateOllamaModelsCache | getllm/scrapers/ollama_scraper.py:123-156 | a raising `get_models` or no models gives False and no write; otherwise the records are written to the given path, or to the default cache path under the home directory, and the result says whether the write succeeded |
| OllamaApiScraper.CacheWritesNamedRecords | getllm/scrapers/ollama_scraper.py:140-152 | a record that reaches the cache comes from a list response whose `get_models` returned, and is named, from 'ollama', with its library URL |
| ModelManager.AnyNamedMeaning | models/manager.py:97 | a positive answer of `any(m['name'] == name …)` names a model in the list, and when every record has a name the answer is exactly whether one carries the name |
| ModelManager.Manager.constructor | models/manager.py:31-34 | the default model is the configured one, or "llama3" when that is empty, and the records are what `get_models()` returns |
| ModelManager.Manager.ListModels | models/manager.py:52 | `list_models` returns the records held |
| ModelManager.Manager.GetDefaultModelName | models/manager.py:109 | `get_default_model_name` returns the default model |
| ModelManager.Manager.SetDefaultModel | models/manager.py:88-100 | a known name becomes the default and the result is what persisting it returns; an unknown name gives False and leaves the default; a record without a name met first raises; the records never change |
| ModelManager.Manager.UpdateModelsFromOllama | models/manager.py:173-186 | the records are reloaded whether or not the cache update succeeded, and returned; the default is unchanged |
| ModelManager.Manager.UpdateModelsFromRemote | models/manager.py:111-171 | 'huggingface' in any case returns the Hugging Face update's result, 'ollama' reloads the records, any other source returns the records unchanged |
| ModelManager.SetDefaultTwice | models/manager.py:88-100 | setting the same default twice gives the same answer both times and leaves the records unchanged |
| BuildAndPublish.ReadPyprojectVersion | build_and_publish.py:37-42 | the loop stops at the first line whose stripped form starts with "version = " and returns the text after its first '=', stripped of whitespace and of both kinds of quotes; no such line gives no version |
| BuildAndPublish.FirstAt | build_and_publish.py:39-42 | the first line that passes the test is the one found |
| BuildAndPublish.FirstNone | build_and_publish.py:39-55 | with no line passing the test, nothing is found |
| BuildAndPublish.SetupLineHasEquals | build_and_publish.py:53-54 | a `setup.py` version line has an '=' to split at |
| BuildAndPublish.ReadSetupVersion | build_and_publish.py:49-55 | a missing `setup.py` gives no version; otherwise the first line starting "version=" or "version =" gives the text between its first '=' and the next ',', stripped of whitespace and quotes |
| BuildAndPublish.NoDot | build_and_publish.py:61 | a decimal number holds neither '.' nor '=' |
| BuildAndPublish.ParseFormat | build_and_publish.py:59-61 | parsing a formatted `major.minor.patch` gives the three numbers back |
| BuildAndPublish.Bump | build_and_publish.py:59-61 | a bumped version exists exactly when the version is three dot-separated decimal numbers |
| BuildAndPublish.BumpIncrementsPatch | build_and_publish.py:59-61 | the bumped version has the same major and minor numbers and the patch number plus one |
| BuildAndPublish.RewritePyproject | build_and_publish.py:63-70 | every pyproject line whose stripped form starts with "version = " becomes `version = "NEW"` and every other line is kept |
| BuildAndPublish.RewriteSetup | build_and_publish.py:72-80 | every `setup.py` version line becomes its text before the first '=' followed by `= "NEW",` and every other line is kept |
| BuildAndPublish.UpdateVersionFiles | build_and_publish.py:30-84 | no version (or an empty one) gives False and writes nothing; different versions write nothing and give True; equal versions raise when the version does not parse and otherwise rewrite both files with the bumped version |
| BuildAndPublish.FormatPlain | build_and_publish.py:61 | a formatted version holds nothing but digits and dots |
| BuildAndPublish.UnquotePlain | build_and_publish.py:41-54 | a plain version between double quotes, with blanks around, is read back as itself |
| BuildAndPublish.PieceOneGlued | build_and_publish.py:41-54 | `split(c)[1]` of a text with exactly one `c` is what follows it |
| BuildAndPublish.PyprojectLineReads | build_and_publish.py:41-68 | the pyproject line written for a plain version is a version line and reads back as that version |
| BuildAndPublish.PyprojectRoundTrip | build_and_publish.py:37-70 | after the pyproject rewrite with a plain version, reading the file's version gives that version |
| BuildAndPublish.SetupPrefix | build_and_publish.py:53-77 | the text before the first '=' of a `setup.py` version line is blanks followed by "version" or "version " |
| BuildAndPublish.SetupLineReads | build_and_publish.py:54-78 | the rewritten `setup.py` line is still a version line and reads back as the new version |
| BuildAndPublish.SetupRoundTrip | build_and_publish.py:49-80 | after the `setup.py` rewrite with a plain version, reading its version gives that version |
| BuildAndPublish.BumpedFilesAgree | build_and_publish.py:30-84 | after a bump both files read back the new version, which is the old one with the patch number plus one, so the next run bumps again |
| BuildAndPublish.RewriteKeepsOtherLines | build_and_publish.py:63-80 | each rewrite keeps the number of lines, replaces each version line and leaves every other line as it was |
| BuildVersion.NoLateQuote | build.py:53-54 | a text with no quote character where a match's closing quote could stand is left as it is |
| BuildVersion.NoQuoteUnchanged | build.py:53-54 | a text without the quote character is left as it is |
| BuildVersion.SubQuotedAgrees | build.py:53-54 | the substitution keeps the first characters of the text, as many as the key and quote have |
| BuildVersion.SubQuotedIdempotent | build.py:53-69 | when neither the key nor the new version holds the quote, substituting a second time changes nothing, so running the step twice writes the same file |
| BuildVersion.NoOpeningAhead | build.py:53-54 | a quote-free text before the key does not start a match |
| BuildVersion.ReplacesAtStart | build.py:53-54 | a match at the front is replaced by the key and the new value in quotes, and the scan goes on after the closing quote |
| BuildVersion.CopiesFirst | build.py:53-54 | a first character that cannot begin a match is copied |
| BuildVersion.CopiesPrefix | build.py:53-54 | a quote-free prefix before the key is copied as it is |
| BuildVersion.SubQuotedReplaces | build.py:53-54 | after a quote-free prefix, the first `KEY"old"` becomes `KEY"new"` and the rest is substituted in turn |
| BuildVersion.UpdateVersionFiles | build.py:30-75 | no version (or an empty one) gives False and writes nothing; otherwise the version is returned, `setup.py` is rewritten by both substitutions when it exists and contains "version=", and `__init__.py` likewise when it contains "__version__" |
| BuildVersion.HasKey | build.py:51 | a text that holds the key passes the `in` test |
| BuildVersion.DoubleQuotePass | build.py:53 | a line with one double-quoted `version="old"` and no other double quote gets the new version in place of the old |
| BuildVersion.SetupVersionReplaced | build.py:51-54 | a `setup.py` whose only quoted text is `version="old"` is written with `version="new"` and nothing else changed |
| UpdateImports.RewriteContent | update_imports.py:34-38 | the loop replaces each old prefix present by its new one, in mapping order, and `updated` holds exactly when some old prefix occurred when its turn came |
| UpdateImports.ReplaceAbsent | update_imports.py:36-37 | replacing a text that does not occur changes nothing |
| UpdateImports.ShortHasNone | update_imports.py:36 | a text shorter than the key does not contain it |
| UpdateImports.SuffixHasNone | update_imports.py:36 | a suffix of a text that lacks the key lacks it too |
| UpdateImports.StartsPreserved | update_imports.py:37 | when the replacement cannot create the target, a piece of the target at the front of the result was already at the front of the input |
| UpdateImports.ReplacementHasNone | update_imports.py:37 | text after the replacement's j-th character, followed by text without the target, holds no target |
| UpdateImports.ReplaceLeavesNone | update_imports.py:37 | after `str.replace`, neither the key nor a target absent before (that the replacement cannot create) occurs |
| UpdateImports.AbsoluteSafe | update_imports.py:24 | the new absolute prefix cannot help form the old one |
| UpdateImports.RelativeSafe | update_imports.py:25 | the new relative prefix cannot help form the old one |
| UpdateImports.CrossSafe | update_imports.py:24-25 | the new relative prefix cannot help form the old absolute one |
| UpdateImports.TwoStepsLeaveNone | update_imports.py:35-38 | two safe replacements in a row leave neither old key in the text |
| UpdateImports.ApplyImportMapping | update_imports.py:22-38 | the mapping replaces the absolute prefix first and the relative one second |
| UpdateImports.OldImportsGone | update_imports.py:22-38 | after the rewrite neither old import prefix occurs in the content |
| UpdateImports.UpdatedIffOldImport | update_imports.py:34-40 | a file is updated exactly when it contains one of the old prefixes, and otherwise its content is unchanged |
| UpdateImports.UpdateFile | update_imports.py:28-48 | the file is written, with the rewritten content, exactly when it was read and some old prefix occurred; the result is True exactly when that write succeeds, and an unreadable file gives False |
| UpdateImports.UpdateAll | update_imports.py:50-61 | the count is the number of files that exist, are read, need the rewrite and are written |
| UpdateImports.SkippedNotCounted | update_imports.py:57-59 | a file that is missing or not rewritten does not change the count |
| UpdateImports.RewrittenCounted | update_imports.py:57-59 | a rewritten file adds one to the count |

## Left out

- Network, browser and DOM access: HTTP requests, Selenium, BeautifulSoup selection, sessions and their headers, retries and sleeps. A page or an answer is an input value, and a scraped card or list item is a record of the texts the selectors would find.
- Subprocesses and process control: `check_ollama` and `execute_code` in getllm_cli.py, `install_model` and `list_installed_models` in pyllm/models.py, the build and upload steps of build.py and build_and_publish.py, and the virtual-environment bootstrap run at import time in pyllm/models.py.
- Time and randomness: timestamps and clock readings are parameters (apart from the library scraper's `scraped_at`, dropped as its line below says), the random pause between detail requests in huggingface_model_monitor.py:171 is left out, and the polling `main` loops of both monitors and their sleep arithmetic are not modelled.
- Terminal output and interaction: rich tables and progress bars (the table is modelled as its header and cells), the interactive menus in models/huggingface.py:207-271 and pyllm/models.py:198-240, `display_model_info` in cli/utils/models.py, log messages, and the dump of the page to debug_ollama_page.html when `scrape_ollama_models` finds no list items (ollama_model_monitor.py:75-79; the model keeps the empty result it returns).
- Text is ASCII-minded: `lower`, `upper`, `strip` and `isdigit` follow the ASCII rules, with no Unicode case folding or Unicode whitespace.
- OllamaMonitor.Fingerprint: Python's `hash()` is replaced by the canonical form it hashes, which amounts to a hash without collisions. `make_hashable` applied to other value kinds is also left out.
- PyllmModels.SetDefaultModelIdempotent: stated only for model names without '\n' or '\r'. Such a character splits the written `OLLAMA_MODEL=` line into several lines when the file is read back, so setting the same name again does change the file.
- PyllmModels.SetDefaultModelSetsLine: stated only for model names without '\n' or '\r', for the same reason.
- PyllmModels.ReadBackRewrite: stated only for model names without '\n' or '\r', since the lines read back are then not the lines written.
- PyllmModels.KeptBlocksQualify: `float(num) <= 7` is decided exactly on the decimal digits, which differs from binary floating point only for numbers that round across 7.
- OllamaLibraryScraper.MergeModels: `get_model_details` is not defined in the class, so detailed mode raises at the first kept model with a URL. The model states exactly that and does not model the details.
- models/huggingface.py:129-138 is a `try` without an `except` and does not parse. The web-scraping fallback of `update_huggingface_models_cache` is therefore not modelled, and only the API step is (`HuggingFaceSearch.ApiUpdate`).
- HuggingFaceSearch.SearchHuggingFaceModels: models/huggingface.py:46 and :52 call `load_huggingface_models_from_cache`, which the module neither imports (lines 16-20) nor defines. As written each call raises `NameError`, and the handler at line 68 returns the filtered defaults. The model takes the cache read (`CatalogRead.Read`) as the result of the intended loader, `load_huggingface_models_from_cache` of getllm/models/__init__.py:129-145; the `Raised` case covers the `NameError` path.
- OllamaLibraryScraper.LibraryModel: the `scraped_at` key that `extract_model_info` adds (getllm/OllamaModelsScraper.py:125) is dropped. It is a wall-clock reading that no key, filter or count reads. `save_to_json` (lines 251-263), which writes the models under a `scraped_at` timestamp and a count, is file output and is not modelled.
- models/constants.py is not part of this model. `DEFAULT_HF_MODELS` and the cache contents are parameters of `HuggingFaceSearch.SearchHuggingFaceModels`.
- HuggingFaceSearch.SearchHuggingFaceModels: tags are modelled as strings. For a tag that is not a string, the source tests `str(tag)`, and the model does not cover that case. In huggingface_model_monitor.py, tags that are not strings are modelled, and they are skipped.
- ollama/api/client.py:23 uses `os` without importing it. The timeout is a parameter of `OllamaClient.Client.constructor`, standing for the intended `OLLAMA_TIMEOUT` setting (`None` when unset). Reading JSON text is a parameter, and a stream line reaches it only once it is known to be UTF-8.
- OllamaApiScraper.UpdateOllamaModelsCache: getllm/scrapers/ollama_scraper.py:136 uses `os` without importing it. The call without a path is modelled as the intended default path under the home directory. The second `try` block (lines 158-163) cannot be reached and is not modelled.
- OllamaApiScraper.Scraper.GetModels: a listing entry whose record raises a type error part-way through is modelled as giving no records. The source could have appended some of its tags' records before raising.
- models/manager.py:9-17 imports names that its helper module does not define. The manager takes what those helpers return as parameters. Its pass-through methods (`get_available_models`, `get_model_info`, `install_model`, `list_installed_models`, `search_huggingface_models`, `interactive_model_search`) only delegate and are not modelled.
- BuildAndPublish.ParseVersion: `int()` also accepts signs, surrounding blanks, underscores and non-ASCII digits. The model accepts only ASCII digit strings, so an unusual version that Python would bump is reported as raising.
- BuildAndPublish.UpdateVersionFiles and BuildVersion.UpdateVersionFiles: the pyproject file is assumed to exist (the source raises otherwise). A failure while writing a file part-way is not modelled.
- BuildVersion.SubQuoted: the replacement text of `re.sub` is used literally. A version holding a backslash would be read by Python as a template escape.
- UpdateImports.UpdateFile: a failed write reports False, but the truncated file it may leave behind is not modelled.
- Modules that only re-export names, exception classes, setup.py, build_fix.py, the test and debug scripts, the command wiring under cli/ and the filesystem helpers of models/utils are outside the core.

## Findings

| source | as written | input that shows it | evidently intended | confidence | as-written member | corrected member |
|---|---|---|---|---|---|---|
| pyllm/models.py:77-80 | when no `OLLAMA_MODEL=` line exists, the new line is appended to the list of lines, so it is glued to a last line that lacks its '\n' | a `.env` holding `A=1` with no final newline becomes `A=1OLLAMA_MODEL=m\n`: no line sets the model, and each later call appends again | the new setting starts a line of its own, and setting the same model twice leaves the file unchanged | not executed | PyllmModels.GluedModelLine | PyllmModels.SetDefaultModelIdempotent |
