# Vocabulary search service: a Dafny model of its core

The service answers autocomplete queries over SKOS vocabularies. Each vocabulary is stored as
an index of concept documents in a local OpenSearch backend. This project models four parts
of it:

- **the loader**: turning one SKOS concept of an RDF graph into a concept document;
- **the proxy**: validating the backend configuration, building the backend URL,
  probing the backend, and running an autocomplete query in three phases (build the request
  payload, send it, turn the hits into concepts with literals and a best label);
- **the vocabulary service**: checking the `vocab_config` setting at start-up, building one
  proxy per configured vocabulary, and listing the vocabularies with or without probing;
- **the models and helpers**: the pydantic models and the comma-separated parameter parser.

Python values are modelled explicitly:

- A JSON value is the `Json` datatype. A dict is an ordered association list, so iteration
  order matters as it does in Python.
- `dict.get`, subscripting, `int()`, `str()`, truthiness and iteration are functions in the
  `Json` module.
- A Python exception is a `Failure` carrying the exception class.
- The HTTP client is a parameter `send: (string, Json) -> Response`. A `Response` is a decoded
  body or one of the three errors `httpx` raises (request error, HTTP status error, invalid JSON).

Where the code and its documentation disagree, the model follows the code:

- `_format_result` runs outside any `try`, so a hit of an unexpected shape raises out of
  `autocomplete`. `OsResults.FormattedResult` returns that failure. It does not return an
  empty page.
- `Concept.lang_set` goes through `list(set(v))`, whose order is unspecified. The model keeps
  first occurrences, and `Concepts.DedupLangSet` promises only "the same members, no
  duplicates".
- The probe's documented contract is "never fails, reports unavailable instead". The code
  does not meet it; see Findings. The proxy's `ProbeBackend` and the service's probed
  listing (`ProbedVocabs`, `Service.ListVocabsProbed`, `ProbedAfterValidation`) use the
  corrected probe. With the probe as written, a backend that answers `[]` makes `probe`
  raise `AttributeError`, and `asyncio.gather` in `list_vocabs(probe=True)` raises it
  again; `LocalOpenSearch.ProbeAsWritten` and `ProbeOfListBody` state that case.

Modules: `Wrappers` (Option, Result, MapResult), `Seqs`, `Text` (Python `isspace`, `strip`,
decimal integers, string order), `Json`, `Concepts` and `Vocabs` (models), `Parameters`,
`OsPayload` (phase 1), `OsResults` (phase 3), `LocalOpenSearch` (the proxy class),
`VocabService`, `LoadSkos`.

## Model

| member | source | states |
|---|---|---|
| Concepts.EmptyLiteral | app/models/concepts.py:10-16 | every field of a literal defaults to None |
| Concepts.ConceptWithDefaults | app/models/concepts.py:41-59 | a concept built from its IRI alone has empty broader/narrower lists and every optional field None |
| Concepts.MakeConcept | app/models/concepts.py:30-66 | every field is stored as given except `lang_set`, which goes through the validator |
| Concepts.DedupLangSet | app/models/concepts.py:61-66 | None stays None; otherwise the result has no duplicates, has exactly the input's members and is no longer than the input |
| Parameters.CsvToList | app/utils/parameters.py:5-16 | None gives None; a list it returns is non-empty, and each item is non-empty, has no comma and no edge whitespace |
| Parameters.CsvOfBlanks | app/utils/parameters.py:14-16 | a string of only commas and whitespace gives None, not an empty list |
| Parameters.SplitJoin | app/utils/parameters.py:14 | splitting at commas undoes joining comma-free pieces with commas |
| Parameters.CsvOfJoin | app/utils/parameters.py:14-16 | on comma-free items joined by commas, the answer is the stripped items that are not empty, in input order, or None when none is left |
| Parameters.CsvRoundTrip | app/utils/parameters.py:12-16 | parsing the comma-join of comma-free, non-blank items gives each item stripped of its edge whitespace, in input order |
| Parameters.BlankItemIgnored | app/utils/parameters.py:14-16 | a blank item anywhere in the input contributes nothing: removing it leaves the answer unchanged |
| Parameters.CsvKeepsOrder | app/utils/parameters.py:14-15 | two items come out stripped and in the order written, for either order |
| LocalOpenSearch.CheckedCfg | app/services/proxies/local_opensearch.py:49-58 | accepts exactly the configs with a non-empty string host and an int or int-convertible port; names the error (host, port, or a raised AttributeError/OverflowError); an accepted config is valid |
| LocalOpenSearch.CheckedCfgRewritesOnlyPort | app/services/proxies/local_opensearch.py:53-56 | validation keeps the same keys, changes no key but `port`, and keeps the port's integer value |
| LocalOpenSearch.CheckedCfgIdempotent | app/services/proxies/local_opensearch.py:49-58 | a valid config passes validation unchanged |
| LocalOpenSearch.ValidCfgKept | app/services/proxies/base.py:18-21 | a valid config survives both `cfg or {}` and validation unchanged |
| LocalOpenSearch.PortStringAccepted | app/services/proxies/local_opensearch.py:53-56 | a port given as a decimal string is accepted and stored as that integer |
| LocalOpenSearch.MissingPortRejected | app/services/proxies/local_opensearch.py:50-58 | a missing port is rejected as a port error, not as a crash |
| LocalOpenSearch.LocalOpenSearchProxy.Init | app/services/proxies/base.py:18-20 | stores the identifier and the config, with a falsy config replaced by `{}` |
| LocalOpenSearch.LocalOpenSearchProxy.ValidateCfg | app/services/proxies/local_opensearch.py:49-58 | passes exactly when `CheckedCfg` succeeds, then holds the checked config and is valid; on failure reports the error and leaves the config untouched |
| LocalOpenSearch.NewProxy | app/services/proxies/base.py:18-21 | construction succeeds exactly when the config passes validation; the proxy is fresh and valid and keeps the identifier |
| LocalOpenSearch.UrlHost | app/services/proxies/local_opensearch.py:60-65 | the host without trailing slashes, as it is when it starts with `http://` or `https://`, and with `http://` in front otherwise |
| LocalOpenSearch.HostAndPort | app/services/proxies/local_opensearch.py:60-65 | the URL is that URL host, `:` and the port's decimal digits, which parse back to the port |
| LocalOpenSearch.LocalOpenSearchProxy.BaseUrl | app/services/proxies/local_opensearch.py:60-65 | the base URL is the URL host of the configured host, `:` and the configured port |
| LocalOpenSearch.QueryData | app/services/proxies/local_opensearch.py:269-285 | a received body is passed through; every caught transport or decoding error gives None |
| LocalOpenSearch.MakeVocabulary | app/models/vocabs.py:16-25 | builds the item exactly when the identifier is a string; otherwise fails with a ValueError |
| LocalOpenSearch.BucketKeysMembers | app/services/proxies/local_opensearch.py:89-91 | the probe's languages are the keys of exactly those buckets that are dicts with a `key` |
| LocalOpenSearch.BucketKeysOfTerms | app/services/proxies/local_opensearch.py:89-91 | buckets that all carry a key give back exactly their keys, in order |
| LocalOpenSearch.ProbeData | app/services/proxies/local_opensearch.py:87-91 | defines what the probe reads from a body: the document count first, then the keys of the `langs` buckets, or the exception reading them raises |
| LocalOpenSearch.ProbeAsWritten | app/services/proxies/local_opensearch.py:70-107 | the probe as written: a non-string identifier fails; an `ok` item carries the count and languages read from the body |
| LocalOpenSearch.ProbeEscapes | app/services/proxies/local_opensearch.py:82-105 | the written probe raises exactly when a body was received and reading it fails with an error other than ValueError |
| LocalOpenSearch.ProbeOfListBody | app/services/proxies/local_opensearch.py:87 | a body `[]` makes the written probe raise AttributeError; the corrected probe reports the vocabulary unavailable |
| LocalOpenSearch.Probe | app/services/proxies/base.py:29-35 | the corrected probe fails only for a non-string identifier; the item is `ok` exactly when a body was received and read, with that body's count and languages; otherwise it is unavailable with no languages and a zero count |
| LocalOpenSearch.ProbeAgrees | app/services/proxies/local_opensearch.py:82-107 | wherever the written probe returns an item, the corrected probe returns the same item |
| LocalOpenSearch.HealthyTotal | app/services/proxies/local_opensearch.py:87 | the document count is read from `hits.total.value` of a backend answer |
| LocalOpenSearch.HealthyLanguages | app/services/proxies/local_opensearch.py:88-91 | the languages are the term keys of the `langs` aggregation of a backend answer, in order |
| LocalOpenSearch.ProbeOfHealthyIndex | app/services/proxies/local_opensearch.py:82-95 | a well-formed backend answer makes the vocabulary `ok` with the reported total and the aggregated languages |
| LocalOpenSearch.LocalOpenSearchProxy.ProbeBackend | app/services/proxies/local_opensearch.py:70-107 | posts the probe body to `<base>/concepts/_search` and returns the corrected probe of the answer; fails only for a non-string identifier |
| LocalOpenSearch.LocalOpenSearchProxy.Autocomplete | app/services/proxies/local_opensearch.py:112-166 | posts the phase-1 payload to the search URL and returns the phase-3 formatting of the answer; any transport error gives an empty page with total 0 |
| OsPayload.QueryFields | app/services/proxies/local_opensearch.py:240-264 | defines the query-field list for the requested fields and languages |
| OsPayload.BuildOsQueryFields | app/services/proxies/local_opensearch.py:240-264 | the loop builds exactly the query-field list: edge fields of pref, then alt, then description fields, then `search_all`, each per requested language or with `*` |
| OsPayload.SearchAllAtMostOnce | app/services/proxies/local_opensearch.py:250-263 | `search_all` appears exactly when requested, only once, and only as the last field |
| OsPayload.QueryFieldsEmpty | app/services/proxies/local_opensearch.py:250-264 | no query fields are built exactly when none of pref, alt, description and search_all is requested |
| OsPayload.QueryFieldsOfPayloadTest | tests/services/proxies/test_local_opensearch_proxy_autocomplete.py:129-142 | with languages fr, en, es and fields pref and description, the fields are those the payload test expects, in order |
| OsPayload.HlFields | app/services/proxies/local_opensearch.py:221-238 | defines the highlight map for the display languages |
| OsPayload.BuildOsHlFields | app/services/proxies/local_opensearch.py:221-238 | the loop builds exactly the highlight map of the display languages |
| OsPayload.HlFieldsShape | app/services/proxies/local_opensearch.py:221-238 | the highlight map is never empty, has distinct keys, has exactly the keys `<root>.<lang>` (or `<root>.*`) for pref, alt and description, and binds each to `{"number_of_fragments": 0}` |
| OsPayload.HlFieldsOfPayloadTest | tests/services/proxies/test_local_opensearch_proxy_autocomplete.py:118-126 | with display languages fr and en, the highlight keys are exactly the six the payload test expects |
| OsPayload.Requested | app/services/proxies/local_opensearch.py:183 | no fields means pref and alt; otherwise exactly the given fields |
| OsPayload.Payload | app/services/proxies/local_opensearch.py:171-219 | `from`, `size`, `_source` and the query are carried over; the query fields are the built ones or, when none were built, the pref/alt edge wildcards, so they are never empty; a highlight block exists exactly when `highlight` is set |
| OsPayload.GenerateOsPayload | app/services/proxies/local_opensearch.py:171-219 | builds exactly `Payload` |
| OsPayload.DefaultFields | app/services/proxies/local_opensearch.py:183-184 | with no `fields`, the search runs on the edge fields of pref and alt |
| OsResults.EntryLiterals | app/services/proxies/local_opensearch.py:326-345 | a language outside the display languages, or texts that are not a list, gives nothing; otherwise one literal per text in order, tagged with the language, and the first snippet goes on the first literal only |
| OsResults.DictLiterals | app/services/proxies/local_opensearch.py:316-346 | None gives None; a non-dict raises AttributeError; a result list is never empty |
| OsResults.DictToLiterals | app/services/proxies/local_opensearch.py:316-346 | the loop computes exactly `DictLiterals` |
| OsResults.LiteralsOfOneLanguage | app/services/proxies/local_opensearch.py:326-345 | the literals of one language are exactly the literals of that language's entry |
| OsResults.NoSuchLanguage | app/services/proxies/local_opensearch.py:326-345 | a language that is not a key of the map contributes no literal |
| OsResults.LiteralsAreShown | app/services/proxies/local_opensearch.py:327-328 | every literal is in a display language when display languages are given |
| OsResults.LiteralsFailure | app/services/proxies/local_opensearch.py:334 | the conversion raises exactly when the highlight value is not a dict and some language passes the display filter with a list of texts |
| OsResults.Candidates | app/services/proxies/local_opensearch.py:364-369 | the candidates are the literals in a display language, in order, when there is one; otherwise all literals; never empty |
| OsResults.PickFrom | app/services/proxies/local_opensearch.py:357-382 | no label exactly for missing or empty literals; the label names its source field |
| OsResults.ChooseBestLiteral | app/services/proxies/local_opensearch.py:348-389 | defines the best label: the label `PickFrom` gives for pref, else for alt, else for description, or None when none of them gives one |
| OsResults.BestLabelSource | app/services/proxies/local_opensearch.py:384-389 | no label exactly when pref, alt and description are all missing or empty; otherwise the label comes from the first non-empty source |
| OsResults.BestLabelChoice | app/services/proxies/local_opensearch.py:370-382 | the label copies the first highlighted candidate when one exists, otherwise the first candidate |
| OsResults.BestLabelLanguage | app/services/proxies/local_opensearch.py:364-369 | when the winning source has a literal in a display language, the label is in a display language |
| OsResults.PrefBeatsHighlightedAlt | app/services/proxies/local_opensearch.py:384-389 | a pref literal outside the display languages still beats a highlighted alt literal inside them |
| Json.StrRepr | app/services/proxies/local_opensearch.py:336-340 | `repr` of a string nested in a list or dict that `str()` renders: enclosed in its quote, with the escaped text between the quotes |
| Json.StrReprReadsBack | app/services/proxies/local_opensearch.py:336-340 | undoing the escapes between the quotes gives back the string, so no character is lost or confused |
| Json.StrReprPlain | app/services/proxies/local_opensearch.py:336-340 | a string without quotes, backslashes or control characters is written between single quotes as it is |
| Json.ReprOfApostrophe | app/services/proxies/local_opensearch.py:340 | `str` of the list holding `it's` is `["it's"]`: double quotes when the text holds an apostrophe and no double quote |
| OsResults.StringsOnly | app/services/proxies/local_opensearch.py:400-401 | keeps exactly the string entries, so the result is no longer than the input |
| OsResults.StringsOnlyAppend | app/services/proxies/local_opensearch.py:400-401 | filtering a concatenation filters each part, so the kept entries keep their input order |
| OsResults.StringsOnlyOne | app/services/proxies/local_opensearch.py:400-401 | a single entry is kept exactly when it is a string |
| OsResults.StringsOnlyOfStrings | app/services/proxies/local_opensearch.py:400-401 | a list of strings is kept whole and in order |
| OsResults.StringIds | app/services/proxies/local_opensearch.py:400-401 | iterating a truthy value that is not a list, dict or string raises; a list gives its string entries |
| OsResults.ScoreOf | app/services/proxies/local_opensearch.py:402 | a missing score gives None; a float-convertible one gives its score; an integer outside the range of a double raises OverflowError, a string `float()` cannot parse raises ValueError, and anything else raises |
| OsResults.ParseHit | app/services/proxies/local_opensearch.py:391-393 | a hit that is not a dict, or whose truthy `_source` is not a dict, raises AttributeError; otherwise the parts are those of its `_source` |
| OsResults.SourceParts | app/services/proxies/local_opensearch.py:393-407 | fails exactly when broader, narrower or `float(_score)` raises; otherwise iri, scheme and the pref/alt/description maps are carried over, `top_concept` is kept only when a bool, `lang_set` is the `str` of each entry when it is a list and None otherwise, broader/narrower are the string identifiers, the score is `float(_score)` and the highlight is `highlight or {}` |
| OsResults.RelIds | app/services/proxies/local_opensearch.py:436-437 | one relation per identifier, in order |
| OsResults.ConceptOf | app/services/proxies/local_opensearch.py:409-438 | succeeds exactly when the pref, alt and description maps all convert; the concept then carries `str` of the parts' IRI, no scheme for a null scheme and `str` of it otherwise, no vocabulary and no identifier, the top flag, the deduplicated lang set, the score and the relations, the three literal lists of the maps, and the best label chosen from them |
| OsResults.ConceptFromParts | app/services/proxies/local_opensearch.py:409-438 | computes exactly `ConceptOf` |
| OsResults.HitsOf | app/services/proxies/local_opensearch.py:305 | defines the hits the page iterates: `hits.hits` of the answer, or an empty list when it is missing or falsy |
| OsResults.TotalOf | app/services/proxies/local_opensearch.py:313 | defines the reported total: `int()` of `hits.total.value`, with 0 for a missing or falsy value |
| OsResults.FormattedResult | app/services/proxies/local_opensearch.py:290-314 | no data gives the empty page with total 0 |
| OsResults.FormatResult | app/services/proxies/local_opensearch.py:290-314 | the loop over the hits computes exactly `FormattedResult` |
| OsResults.FormattedPage | app/services/proxies/local_opensearch.py:305-314 | a formatted page has one concept per hit, in hit order, and the total the backend reported |
| VocabService.CheckEntry | app/services/vocab_service.py:42-66 | an entry passes exactly when it is well formed and its identifier is new; it then yields its identifier and the entry as its proxy's constructor leaves it (its config replaced by the checked config), which is runnable |
| VocabService.Rewritten | app/services/proxies/local_opensearch.py:53-56 | defines an entry as its proxy's constructor leaves it: a config that passes validation is replaced in place by the checked config; any other entry is left as it is |
| VocabService.RewrittenOnlyPort | app/services/proxies/local_opensearch.py:53-56 | the rewrite keeps the entry's keys and every member but `config`; inside the config it keeps the keys, every value but the port, and the port's integer value |
| VocabService.ScanConsistent | app/services/vocab_service.py:41-66 | the loop's state stays consistent: as many identifiers as entries passed, no duplicates, and all entries passed when no error stopped it |
| VocabService.ScanPassesIff | app/services/vocab_service.py:41-66 | the loop ends without error exactly when every entry is well formed and the identifiers are distinct |
| VocabService.Validated | app/services/vocab_service.py:29-66 | defines the start-up check: the first error of the checks in source order, or a pass, together with `vocab_config` afterwards, in which every entry the loop got through holds its rewritten config |
| VocabService.ValidationPassesIff | app/services/vocab_service.py:36-66 | validation passes exactly when `vocabularies` is a non-empty list of well-formed entries with distinct identifiers |
| VocabService.MissingVocabulariesRefused | app/services/vocab_service.py:36-39 | a config without `vocabularies`, or no config at all, is refused |
| VocabService.DuplicateReportedFirst | app/services/vocab_service.py:50-53 | a second entry with the same identifier is reported as a duplicate before anything else about it is checked |
| VocabService.DuplicateStops | app/services/vocab_service.py:52-53 | once an identifier has been seen, the next entry with it stops the loop with a duplicate error |
| VocabService.ValidatedEntriesRunnable | app/services/vocab_service.py:62-66 | after validation passes, the settings keep every other key, and each entry is its original entry with only the port rewritten, runnable with its original identifier |
| VocabService.ScanLoop | app/services/vocab_service.py:41-66 | the loop computes the error and the passed entries of the scan |
| VocabService.CheckOne | app/services/vocab_service.py:42-66 | one loop turn computes exactly `CheckEntry` |
| VocabService.ValidateConfigOrFail | app/services/vocab_service.py:29-66 | the outcome and the new settings are exactly those of `Validated` |
| VocabService.ProxySpecs | app/services/vocab_service.py:95-105 | defines what `_build_proxies` builds: the identifier and checked config of each entry's proxy, in order, or the first exception (a non-dict `vocab_config`, a non-iterable `vocabularies`, or the first entry that cannot be built) |
| VocabService.ProxyOf | app/services/vocab_service.py:99-104 | an entry gives a proxy only if it is a dict with an identifier, the `local_os` type and a config that passes validation |
| VocabService.ProxyOfRunnable | app/services/vocab_service.py:99-104 | a runnable entry gives its proxy with its config unchanged |
| VocabService.ProxyOfFound | app/services/vocab_service.py:99-104 | an entry with its three members and an acceptable config gives the proxy of that identifier and checked config |
| VocabService.ProxyOfRewrites | app/services/proxies/base.py:18-21 | a proxy built from an entry holds that entry's rewritten config, and building it again from the rewritten entry gives the same proxy |
| VocabService.ListedVocabs | app/services/vocab_service.py:77-83 | defines `list_vocabs(probe=False)`: the proxies, then one item per proxy built by the `Vocabulary` model |
| VocabService.ListedOfSpecs | app/services/vocab_service.py:77-83 | for any configuration whose proxies build, the unprobed listing succeeds exactly when every identifier is a string, and then gives one `ok` item per proxy, in order, with that identifier, no languages and a zero count; otherwise it raises ValueError |
| VocabService.ListAfterValidation | app/services/vocab_service.py:77-83 | once validation passed, listing without probing cannot fail: one `ok` item per entry with that entry's identifier, no languages and a zero count |
| VocabService.ProbedVocabs | app/services/vocab_service.py:85-93 | defines `list_vocabs(probe=True)`: the proxies, then each proxy's corrected probe at its search URL, in proxy order |
| VocabService.ProbeProxies | app/services/vocab_service.py:85-86 | the gathered probes of the built proxies, run one after the other: exactly the corrected probe of each proxy, in proxy order, or the first failure |
| VocabService.ProbedAfterValidation | app/services/vocab_service.py:85-93 | once validation passed, the probed listing with the corrected probe cannot fail: one item per entry, in order, with that entry's identifier, probed at the search URL its rewritten entry names, `ok` exactly when that backend answered readably, and otherwise unavailable and empty |
| VocabService.CheckedEntryUrl | app/services/proxies/local_opensearch.py:49-65 | an entry that passes validation is, once rewritten, probed at the URL of its own configured host and of `int()` of its configured port |
| VocabService.ProxyFor | app/services/vocab_service.py:99-104 | one loop turn builds a fresh proxy matching `ProxyOf`, or fails with its error |
| VocabService.ProxiesFor | app/services/vocab_service.py:95-105 | one fresh proxy per entry, in order, each matching its entry, or the first entry's error; it also returns the entries it got through, each as its proxy's constructor left it |
| VocabService.Service.BuildProxies | app/services/vocab_service.py:95-105 | one fresh, validated proxy per configured entry, in order, or the error the first bad entry raises; afterwards the settings hold every entry the loop got through with its config rewritten (`BuiltBack`) |
| VocabService.BuiltBack | app/services/vocab_service.py:95-105 | defines `vocab_config` after `_build_proxies`: the entries before the first one that cannot be built are rewritten, and nothing else changes |
| VocabService.BuiltBackSameProxies | app/services/vocab_service.py:95-105 | the rewrite left in the settings changes nothing a later call sees: the same proxies or exception, the same unprobed listing and, for any backend, the same probed listing |
| VocabService.Service.ListVocabs | app/services/vocab_service.py:77-83 | the unprobed listing of the settings as they were; the settings afterwards are rewritten as `_build_proxies` leaves them |
| VocabService.Service.ListVocabsProbed | app/services/vocab_service.py:85-93 | the corrected probe results of all proxies of the settings as they were, in proxy order; the settings afterwards are rewritten as `_build_proxies` leaves them |
| LoadSkos.NormText | os-vocabs/loaders/load_skos.py:16-18 | defines `_norm_text`: every whitespace run becomes one space, then edge spaces are stripped |
| LoadSkos.NormTextShape | os-vocabs/loaders/load_skos.py:16-18 | the normalised text has no edge whitespace, and every whitespace character in it is a single space between two non-space characters |
| LoadSkos.NormTextWords | os-vocabs/loaders/load_skos.py:16-18 | the normalised text is the words of the input (its maximal runs of non-whitespace), in order, joined by single spaces: each inner whitespace run becomes one space and none vanishes |
| LoadSkos.NormTextIdempotent | os-vocabs/loaders/load_skos.py:16-18 | normalising twice is normalising once |
| LoadSkos.NormTextKeepsNonSpace | os-vocabs/loaders/load_skos.py:16-18 | normalising keeps every non-space character, in order |
| LoadSkos.LangOf | os-vocabs/loaders/load_skos.py:34 | a missing or empty language is `und`; any other tag is the literal's own tag lowercased; the result is never empty and has no upper-case letter |
| LoadSkos.LangOfIdempotent | os-vocabs/loaders/load_skos.py:34 | a tag that was already normalised comes out unchanged |
| LoadSkos.Collected | os-vocabs/loaders/load_skos.py:21-45 | defines the language map of a predicate's literal objects: language to its non-empty normalised texts, without duplicates |
| LoadSkos.CollectLangLiterals | os-vocabs/loaders/load_skos.py:21-45 | the loop builds exactly the collected language map |
| LoadSkos.TaggedPairs | os-vocabs/loaders/load_skos.py:31-37 | a (language, text) pair is collected exactly when some literal object has that language and a non-empty normalised text |
| LoadSkos.CollectedEntry | os-vocabs/loaders/load_skos.py:38-43 | each language's texts are its non-empty normalised texts without duplicates, in first-seen order |
| LoadSkos.CollectedKeys | os-vocabs/loaders/load_skos.py:38-40 | languages appear in first-seen order, once each, and the map is well formed |
| LoadSkos.UniqueFlatten | os-vocabs/loaders/load_skos.py:48-62 | the loop returns the flattened non-empty strings without duplicates, in first-seen order |
| LoadSkos.AddUnique | os-vocabs/loaders/load_skos.py:56-61 | the inner loop appends, in order, the non-empty strings of one iterable not seen before, and keeps `seen` equal to the members of the result |
| LoadSkos.UniqueFlattenMembers | os-vocabs/loaders/load_skos.py:48-62 | the result has no duplicates and holds exactly the non-empty strings of the inputs |
| LoadSkos.Merged | os-vocabs/loaders/load_skos.py:74-89 | defines the description map: the definitions, then the notes not already present, per language |
| LoadSkos.MergedSpec | os-vocabs/loaders/load_skos.py:74-89 | the merged description has the definition languages then the new note languages; each language holds its definitions followed by its new notes |
| LoadSkos.MergeDescription | os-vocabs/loaders/load_skos.py:74-89 | the two loops compute exactly the merged description |
| LoadSkos.SortedSet | os-vocabs/loaders/load_skos.py:92 | defines `sorted(set(ks))`: each language inserted in turn into a strictly sorted list |
| LoadSkos.SortedSetSpec | os-vocabs/loaders/load_skos.py:92 | the language set is strictly sorted and holds exactly the given languages |
| LoadSkos.SortedUnique | os-vocabs/loaders/load_skos.py:92 | two strictly sorted lists with the same members are equal, so the language set is determined by its members |
| LoadSkos.SearchTexts | os-vocabs/loaders/load_skos.py:98-103 | defines the texts `search_all` joins: the texts of pref, alt and description in map order, non-empty and without duplicates, in first-seen order |
| LoadSkos.SearchTextsSpec | os-vocabs/loaders/load_skos.py:98-103 | the search texts have no duplicates and are exactly the texts of pref, alt and description |
| LoadSkos.SearchAll | os-vocabs/loaders/load_skos.py:98-103 | the loop joins exactly the search texts with single spaces |
| LoadSkos.JoinNormalized | os-vocabs/loaders/load_skos.py:103 | joining normalised non-empty texts with spaces gives a normalised text |
| LoadSkos.SearchAllNormalized | os-vocabs/loaders/load_skos.py:98-103 | `search_all` of clean fields is normalised |
| LoadSkos.ConceptDoc | os-vocabs/loaders/load_skos.py:65-117 | defines the concept document: iri, scheme or `""`, top flag, sorted lang set, broader, narrower, the three maps and `search_all` |
| LoadSkos.ConceptToDoc | os-vocabs/loaders/load_skos.py:65-117 | builds exactly the concept document |
| LoadSkos.ConceptDocTop | os-vocabs/loaders/load_skos.py:108 | `top_concept` holds exactly when the concept has a `topConceptOf` object |
| LoadSkos.ConceptDocHierarchy | os-vocabs/loaders/load_skos.py:95-96 | broader and narrower hold exactly the string forms of the concept's broader and narrower objects |
| LoadSkos.ConceptDocLangSet | os-vocabs/loaders/load_skos.py:91-92 | `lang_set` is strictly sorted and holds exactly the languages with a kept pref, alt, definition or note literal |
| LoadSkos.ConceptDocTexts | os-vocabs/loaders/load_skos.py:98-116 | every stored text is non-empty and normalised, and so is `search_all` |

## Left out

- HTTP transport (`httpx`, timeouts, `raise_for_status`, JSON decoding) is not modelled. The backend is the parameter `send`, and its answer is one of the `Response` cases.
- `asyncio.gather` in `list_vocabs(probe=True)` is modelled as a sequential loop. The result is the same ordered list, but concurrency is not modelled.
- Logging is not modelled: warnings on unavailable vocabularies, the `full` relation expansion warning and the probe's exception warnings. Because of this, `broader`, `narrower`, their depths and `display_fields` are not parameters of `Autocomplete`; they only affect logging.
- The `/search` aggregator (merging, ranking and paginating across vocabularies) does not exist in this code, so it is not modelled.
- The web layer (FastAPI routes, settings loading from the environment, error handlers) is not part of this model.
- RDF parsing and the file I/O of the loader's `main` are not modelled. The graph is a sequence of triples, and only `concept_to_doc` and its helpers are modelled.
- Floating-point values are abstract. A `Float` records only its truncation, whether it is zero and its `repr`, which is enough for `int()`, truthiness and `str()`.
- OsResults.ScoreOf: the score is kept as the JSON value; the numeric value `float()` computes is not modelled, and neither is the string grammar `float()` parses, so which strings raise ValueError is left abstract. A JSON integer too large for a double raises OverflowError, as in Python.
- Json.PyInt: Python's `int()` of strings with underscores or non-ASCII digits is not modelled.
- Json.StrRepr: characters outside ASCII that Python's `str.isprintable()` rejects (for example U+00A0 or U+2028) are written as they are, where `repr` writes a `\x`, `\u` or `\U` escape, because the Unicode printable table is not modelled.
- The RDF graph is a sequence of triples, so it may repeat a triple, which an rdflib graph (a set of triples) cannot. Only for such an input does the model list a broader or narrower IRI twice; `ConceptToDoc` places no requirement on it.
- LoadSkos.LangOf: `str.lower()` is modelled for ASCII letters only.
- Concepts.DedupLangSet: states the members and the absence of duplicates but no order, because the order of `list(set(v))` is unspecified.
- A proxy that is not `local_os` cannot be built; the type registry holds only that type.
- Tests that still use the old `id` key are not reflected, because the code uses `identifier`.

## Findings

| source | as written | input that shows it | evidently intended | confidence | as-written member | corrected member |
|---|---|---|---|---|---|---|
| app/services/proxies/local_opensearch.py:82-105 | `probe` catches request, HTTP status and JSON errors and `ValueError`, so `AttributeError`, `TypeError` and `OverflowError` raised while reading the body escape | the backend answers 200 with the JSON body `[]`, so `data.get` raises `AttributeError` | any failure to reach or read the backend gives the unavailable item (the contract of `VocabProxy.probe` in app/services/proxies/base.py:29-35) | high, not executed | LocalOpenSearch.ProbeAsWritten | LocalOpenSearch.Probe |
