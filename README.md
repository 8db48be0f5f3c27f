# Heritage Sites Finder — a verified model of its record pipeline and search index

Heritage Sites Finder collects UNESCO World Heritage site records and serves a text search over them. This project is a Dafny model of the parts of the repository that carry logic, together with proofs about that model.

**Record pipeline** (`src/fetcher.py`):
- picking the site list out of a decoded JSON document;
- the key-fallback lookup `_get` and the seven-key site record of `_normalize_site_record`;
- cleaning a scraped country string;
- mapping a country to a continent, using the `_COUNTRY_CONTINENT` table;
- the tag-stripping fallback of `_strip_html`;
- the record loop of `load_sites_from_rss`;
- the in-place merge loop of `enrich_sites`.

**Search index** (`src/indexer.py`): the `HeritageIndexer` class. The model covers its four fields, `fit`, `search`, `save`, `load` and `load_or_build`.

**Command line** (`src/cli.py`): the root extraction of `load_json`.

## Modules

**Utilities**
- `Wrappers` — `Option`, `Result`, `Outcome`.
- `Text` — the Python string operations the code relies on: `strip`, `lower`, `capitalize`, `split(sep)[0]`, `rsplit(" ", 1)[0]`, `endswith`, `in`, `join` and `str(int)`.
- `Json` — decoded JSON values:
  - A dict is an insertion-ordered sequence of entries.
  - Assignment replaces an existing key where it stands, or appends a new one.
  - The module also gives truthiness and `str()`.

**Record pipeline**
- `Records` — `_extract_sites_from_json`, `_get`, `_normalize_site_record`.
- `Country` — `_normalize_country_string`, `_COUNTRY_CONTINENT`, `_country_to_continent`.
- `Markup` — `_strip_html`.
- `Rss` — `load_sites_from_rss`:
  - The record loop is a method with a `while` loop that breaks at `max_sites`.
  - The loop is proved against `ItemRecord` and `Limit`.
- `Enrich` — `enrich_sites`:
  - A method that rewrites an `array` of site records in place.
  - It is proved against the specification function `EnrichFrom`.

**Search index and command line**
- `Indexer` — `HeritageIndexer`:
  - A class with the fields `vectorizer`, `docIds`, `docs` and `tfidfMatrix`.
  - A `FileStore` class stands for the files the index is saved to.
- `Cli` — `load_json`.

## Abstractions

Each of these library calls is a parameter or an oracle:
- `float()`
- `html.unescape`
- BeautifulSoup's text extraction
- `ET.fromstring` with `findall(".//item")`, and `ET.tostring`
- `_scrape_site_page`
- the acceptance of a corpus by `TfidfVectorizer.fit_transform`
- the cosine similarity of a query with a matrix row

An oracle that can raise returns `None` for the raised exception.

## Behaviour of the code worth knowing

- **`fit` is not atomic** (src/indexer.py:30-39).
  - It assigns `docs` first, then `doc_ids`, then a fresh unfitted vectorizer, then the matrix.
  - An exception part-way leaves a mixture of old and new fields. `Indexer.AfterFit` states each of these intermediate states.
  - After a failed fit, a search can mix the old ids with the new documents, or raise. `Search` states this through `Resolves` and `HitAt`.
- **Tie order is open.**
  - Results come from `argsort()[::-1]` (src/indexer.py:51). That is not a stable sort in fit order.
  - `RankDescending` chooses freely among equal scores.
- **`top_k` follows Python slice semantics** (`SliceLen`).
  - A negative `top_k` drops that many documents from the end.
  - It is not restricted to positive values.
- **Searching after a fit that `fit_transform` rejected.**
  - When an earlier fit succeeded, the old matrix is still there beside the fresh unfitted vectorizer. The search then raises sklearn's not-fitted error from `transform` (`TransformUnfitted`).
  - On an index that was never fitted, the matrix is still None, so the search raises the index's own "not fitted" error (`NotFitted`).

## Edge cases the model keeps, as the code has them

**`enrich_sites`**
- A site that is not a dict ends the whole run. Its error handler evaluates `s.get("id")` for the log message, and that raises again (`NotADict`).
- `save_every == 0` raises `ZeroDivisionError` right after the first updated site (`ZeroSaveInterval`).
- The `setdefault("raw", {})` step never changes anything: a truthy link already implies that `raw` is a truthy dict.

**`load_sites_from_rss`**
- A negative `max_sites` still returns one site.
- An item without `<description>` raises `AttributeError` out of the loader (`MissingDescription`).

**`_country_to_continent`**
- A name that strips down to nothing maps to Asia. Such a name is whitespace around a run of `.` and `;` characters, with no whitespace inside the run. The empty key is a substring of every table key, so the first entry, China, decides (`BlankKeyMapsToAsia`).

## Model

| member | source | states |
|---|---|---|
| Text.NatToStringRoundTrip | src/indexer.py:31 | the text `str(i)` gives a position reads back as that position |
| Text.NatToStringInjective | src/indexer.py:31 | distinct positions have distinct `str(i)` texts |
| Text.Strip | src/fetcher.py:460 | `strip()` removes whitespace runs at both ends: the result is a slice of the input that neither starts nor ends with whitespace, and only whitespace follows it |
| Text.Before | src/fetcher.py:462-463 | `split(sep)[0]` is the longest prefix without `sep`, and the input itself when `sep` is absent |
| Text.BeforeLast | src/fetcher.py:468 | `rsplit(" ", 1)[0]` is the prefix before the last space, and the input itself when there is no space |
| Text.LowerIdempotent | src/fetcher.py:541-545 | lower-casing twice is lower-casing once, and the result has no upper-case ASCII letter |
| Text.CapitalizeOnlyChangesCase | src/fetcher.py:566 | `capitalize()` only changes case: lower-casing its result gives `s.lower()`, and capitalizing twice is capitalizing once |
| Text.IndexOf | src/fetcher.py:371-372 | `find` of a present value: a position holding it, with no earlier occurrence |
| Json.LookupFindsKeys | src/fetcher.py:81-82 | a key has a value in a dict exactly when it is one of the dict's keys |
| Json.Set | src/fetcher.py:413 | after `d[k] = v`, `k` maps to `v` and every other key keeps its value |
| Json.SetKeys | src/fetcher.py:414 | assignment keeps the key order: an existing key stays in place, a new key goes last |
| Json.MergeTruthy | src/fetcher.py:411-413 | each listed key whose source value is truthy takes the source value; every other key keeps its value |
| Json.FirstListUnder | src/fetcher.py:81-83 | None exactly when no priority key holds a list; otherwise the list under the first priority key that holds one |
| Json.FirstListValue | src/fetcher.py:85-87 | None exactly when no value is a list; otherwise the first list value in insertion order |
| Records.ExtractSitesFromJson | src/fetcher.py:77-88 | a list root is returned unchanged; a dict root yields the first of sites/rows/data/results holding a list, else its first list value, else []; any other root yields [] |
| Records.GetFirst | src/fetcher.py:92-98 | the value of the first listed key present with a non-None value, else the default |
| Records.Coordinate | src/fetcher.py:115-116 | None or "" gives None without calling `float`; any other value fails exactly when `float` raises on it, and otherwise gives the number `float` returns |
| Records.Coordinates | src/fetcher.py:112-118 | each coordinate is None or a number; when the conversion of either the first latitude value or the first longitude value fails, both are None; otherwise they are the two converted values |
| Records.TextField | src/fetcher.py:100-102 | `str()` of the value under the first listed key present with a non-None value, and "" when there is none; always a string |
| Records.NormalizeSiteRecord | src/fetcher.py:91-128 | the record has exactly the keys id, name, description, country, latitude, longitude, raw in that order; raw is the input unchanged; id, name, description and country are strings |
| Records.NormalizedFields | src/fetcher.py:100-128 | the id, name, description, country, latitude and longitude fields of the record, each from its source keys |
| Records.NormalizedIdIsFirstPresentKey | src/fetcher.py:92-100 | the id is `str()` of the first of id/site_id/ref/whc_id present with a non-None value, else "" |
| Records.ListCountryIsJoined | src/fetcher.py:105-109 | a list-valued country becomes its elements' texts joined with ", ", a dict element contributing its "name" |
| Records.FailedConversionClearsBoth | src/fetcher.py:114-118 | when `float` raises on the non-empty value found under any latitude key or any longitude key, latitude and longitude are both None |
| Records.MissingLatitudeIsNone | src/fetcher.py:112-115 | a missing, None or "" latitude gives None |
| Records.ParsedCoordinatesKept | src/fetcher.py:112-116 | when `float` parses the values found under the latitude keys (latitude, lat) and the longitude keys (longitude, lon, lng), the record holds the parsed numbers |
| Country.CloseParen | src/fetcher.py:457 | the position `\(.*?\)` closes at: the first ')', provided no newline comes before it |
| Country.RemoveParenthetical | src/fetcher.py:457 | the result is no longer than the input, uses only its characters, and is the input itself when there is no '(' |
| Country.ParentheticalsGone | src/fetcher.py:457 | no `( … )` span the pattern would match is left after the removal |
| Country.ParentheticalDropped | src/fetcher.py:457 | a closed span without a newline is dropped whole, and scanning resumes after it |
| Country.TextBeforeParenKept | src/fetcher.py:457 | text before the first '(' is kept unchanged |
| Country.UnclosedParenKept | src/fetcher.py:457 | a '(' with no ')' closing it on its line is kept, and the removal goes on after it |
| Country.RemoveLabel | src/fetcher.py:458-459 | the result uses only the input's characters, and is the input itself when the label occurs nowhere, in any case |
| Country.LabelDropped | src/fetcher.py:458-459 | a label written in any case, with the ':' or whitespace run after it, disappears |
| Country.Clamp | src/fetcher.py:467-468 | a prefix of at most 120 characters; up to 120 characters are kept whole; a longer text is cut at the last space within its first 120 characters, or at 120 when there is none |
| Country.FirstSemicolonPart | src/fetcher.py:462-463 | with a ';' the text becomes its part before the first ';', stripped; without one it is unchanged; the result has no ';' |
| Country.FirstCommaPart | src/fetcher.py:464-465 | when the part before the first ',' is longer than one character, the text becomes that part, stripped; otherwise it is unchanged |
| Country.NormalizeCountryString | src/fetcher.py:450-469 | empty input gives ""; the output never contains ';', is at most 120 characters and uses only input characters |
| Country.StripOfTrimmed | src/fetcher.py:460 | text that neither starts nor ends with whitespace is its own `strip()` |
| Country.BeforeSeparator | src/fetcher.py:462-463 | `split(sep)[0]` of a text with `sep` right after a `sep`-free prefix is that prefix |
| Country.NothingToRemove | src/fetcher.py:455-468 | without notes or labels, the cleaning is the strip, the `;` and `,` cuts and the clamp |
| Country.CleanNameUnchanged | src/fetcher.py:455-468 | a clean name (no notes, labels, `;` or `,`, already stripped, at most 120 characters) comes back unchanged |
| Country.FirstSegmentAfterStrip | src/fetcher.py:460-463 | after the strip, the first `;` part of `name;rest` is `name`, stripped |
| Country.FirstCountryKept | src/fetcher.py:455-468 | of several countries separated by `;`, a clean first name is the result |
| Country.TableMapsToContinents | src/fetcher.py:474-527 | every table value is one of the six continents |
| Country.TableStartsWithChina | src/fetcher.py:474-476 | the first table entry is China → Asia |
| Country.TableGet | src/fetcher.py:534-535 | exact lookup: None exactly when no key equals the name |
| Country.FirstOverlap | src/fetcher.py:544-546 | None exactly when no key overlaps; otherwise the value of the first key, in table order, that contains the stripped name or is contained in it, ignoring case |
| Country.FirstWordAt | src/fetcher.py:548-555 | the first alternative whose `\b…\b` match succeeds at a position |
| Country.SearchWords | src/fetcher.py:548-555 | the leftmost match position and, there, the first matching alternative; None exactly when no alternative matches anywhere |
| Country.WordContinent | src/fetcher.py:556-566 | any word the second pattern finds names one of the six continents |
| Country.CapitalizeByLowerCase | src/fetcher.py:566 | `capitalize()` depends only on the lower-cased word |
| Country.ContainsPrefix | src/fetcher.py:560-561 | a text containing a word contains every prefix of it |
| Country.UnitedStatesNamesUnited | src/fetcher.py:560-561 | a key containing "United States" passes the "United" test |
| Country.ContinentOfWord | src/fetcher.py:557-566 | a word starting with "amer" (any case) gives North America exactly when the key contains "United" or "USA", and South America otherwise; one starting with "pacif" gives Oceania; any other word is capitalized |
| Country.MatchedText | src/fetcher.py:557 | `m.group(1)`: the text the matching alternative covered, which lower-cases to that alternative |
| Country.ContinentFromWords | src/fetcher.py:548-566 | None exactly when the hint pattern or the continent-word pattern finds nothing; otherwise the `ContinentOfWord` of the text of the leftmost continent word; always one of the six continents |
| Country.NoHintNoContinent | src/fetcher.py:548-555 | a key in which no hint word matches gets no continent from the word step |
| Country.NoWordNoContinent | src/fetcher.py:556-567 | a key in which no continent word matches gets no continent from the word step |
| Country.ContinentOfKey | src/fetcher.py:537-566 | an alias key gives Asia; otherwise the first overlapping table key decides; without one, the word step decides; any result is one of the six continents |
| Country.CountryToContinent | src/fetcher.py:530-567 | an empty name gives None; an exact key gives its value; any other result is one of the six continents |
| Country.UnknownNameIsNone | src/fetcher.py:530-567 | a name that is no key, no alias, overlaps no key and has no hint word maps to None |
| Country.HintWithoutContinentWordIsNone | src/fetcher.py:530-567 | a name that is no key, no alias, overlaps no key and has no continent word maps to None, even with a hint word |
| Country.ChinaAliasIsAsia | src/fetcher.py:537-542 | a name ending in ", people's republic of china" that is not a key maps to Asia |
| Country.FirstOverlapDecides | src/fetcher.py:544-546 | otherwise the first overlapping table key decides |
| Country.BlankKeyMapsToAsia | src/fetcher.py:537-546 | a name that strips to nothing maps to Asia |
| Markup.TagClose | src/fetcher.py:446 | the position `<[^>]+>` closes at: the first '>', provided at least one character precedes it |
| Markup.RemoveTags | src/fetcher.py:446 | the result is no longer than the input, uses only its characters, and is the input itself when there is no '<' |
| Markup.TagsGone | src/fetcher.py:446 | no tag the pattern would match is left after the removal |
| Markup.TagDropped | src/fetcher.py:446 | a tag `<…>` with non-empty content is dropped whole |
| Markup.TextBeforeTagKept | src/fetcher.py:446 | text before the first '<' is kept in order |
| Markup.StripHtml | src/fetcher.py:434-447 | empty input gives ""; the BeautifulSoup text when that succeeds; otherwise the tag-free fallback |
| Rss.TrimToFirstTag | src/fetcher.py:371-375 | a suffix of the input: from the first '<' on when there is one, the whole input otherwise |
| Rss.ElementText | src/fetcher.py:387-388 | the stripped text of a present element with text, else "" |
| Rss.DigitRun | src/fetcher.py:393 | the longest all-digit prefix |
| Rss.FindListId | src/fetcher.py:393 | the leftmost position where `/en/list/(\d+)` matches |
| Rss.SiteIdFromLink | src/fetcher.py:393-394 | the digits after the first `/en/list/` followed by a digit, else the whole link |
| Rss.ListLinkMatches | src/fetcher.py:393 | `/en/list/` followed by a digit matches where it stands, and the text after it is what follows the path |
| Rss.SiteIdOfListLink | src/fetcher.py:393-394 | a link `…/en/list/<n>` yields the id `str(n)`, which reads back as n |
| Rss.BaseRecordFields | src/fetcher.py:387-404 | the record before any scrape has the seven record keys: the id from the link, the title, the cleaned description, country "", coordinates None, and raw {link, rss_item} |
| Rss.UnfollowedRecord | src/fetcher.py:396-404 | without a followed link, or when the scrape fails, country is "" and latitude/longitude are None |
| Rss.FollowedRecord | src/fetcher.py:407-414 | a successful scrape overrides exactly the five merge keys it has truthy values for, keeps the id, and sets `raw["scraped_url"]` |
| Rss.Limit | src/fetcher.py:419-420 | all items without a limit or with 0; min(n, m) for a positive limit m; one item for a negative limit |
| Rss.RecordsOfAppend | src/fetcher.py:380-418 | appending the next described item's record to the records of the items before it gives the records of one more item |
| Rss.CollectRecords | src/fetcher.py:380-420 | succeeds exactly when the first `Limit` items all have a description, and then returns `ItemRecord` of each of them in order; otherwise fails at the first item without one |
| Rss.LoadSitesFromRss | src/fetcher.py:332-431 | a parse failure raises; otherwise the outcome of the record loop on the parsed items |
| Enrich.LinkOf | src/fetcher.py:592-594 | truthy exactly when "link" or "url" is truthy |
| Enrich.EnrichedSite | src/fetcher.py:590-614 | a non-dict site aborts; a site is updated exactly when it is a dict with a dict `raw`, a truthy link and missing data, and its page scrapes; a site that is not updated stays exactly as it was |
| Enrich.CompleteSiteUnchanged | src/fetcher.py:595-598 | a site whose country, latitude and longitude are all truthy is never touched |
| Enrich.UpdatedSiteFields | src/fetcher.py:598-612 | an updated site had a truthy link and missing data; only truthy scraped values overwrite the six merge keys; other fields stay; `raw["scraped_url"]` is the link |
| Enrich.ScrapableSiteUpdated | src/fetcher.py:598-612 | such a site becomes the site with the truthy scraped values merged over the six keys and `raw["scraped_url"]` set to the link, and counts as updated |
| Enrich.UnscrapableSiteKept | src/fetcher.py:588-614 | any other dict site, including one whose scrape raises, is left as it was and does not count |
| Enrich.Enrichment | src/fetcher.py:590-614 | the loop body applied to one site is `EnrichedSite`, and it aborts exactly on a site that is not a dict |
| Enrich.EnrichFrom | src/fetcher.py:588-616 | the list keeps its length, and the sites already processed stay as they were |
| Enrich.EnrichFromSucceeds | src/fetcher.py:588-616 | the loop completes exactly when every site is a dict and, for a zero save interval, nothing is updated |
| Enrich.EnrichFromSites | src/fetcher.py:588-612 | on completion each site is enriched on its own |
| Enrich.EnrichFromCount | src/fetcher.py:612 | on completion the count is the number of updated sites |
| Enrich.NotADictStopsCleanly | src/fetcher.py:588-614 | a non-dict site ends the run, and it and every later site are unchanged |
| Enrich.ZeroIntervalStopsCleanly | src/fetcher.py:612-616 | with a zero save interval the run ends at the first updated site; later sites are unchanged |
| Enrich.EnrichDictSites | src/fetcher.py:588-616 | for dict sites and a non-zero save interval, every site is enriched on its own and the result is the number updated |
| Enrich.EnrichSites | src/fetcher.py:570-630 | raises without the scraping libraries; otherwise the array ends as `EnrichFrom` says, with `Enrichment(scrape)` as the loop body, and the result is the same list, or the exception that ends the loop |
| Indexer.PositionalIdsDistinct | src/indexer.py:31 | documents without an "id" get distinct ids |
| Indexer.Texts | src/indexer.py:32-35 | one text per document, in order, or a failure when any document's text fails |
| Indexer.RankedPrefix | src/indexer.py:51 | a prefix of a complete ranking is a ranking |
| Indexer.FirstIsMaximal | src/indexer.py:51 | the first ranked document scores at least as high as every document |
| Indexer.StrictMaxRanksFirst | tests/test_indexer.py:13-17 | a document whose score is strictly the highest comes first |
| Indexer.Range | src/indexer.py:51 | the set of positions below n, which has n members |
| Indexer.RankedAppend | src/indexer.py:51 | appending a highest-scoring remaining position to a ranking of the others keeps it a ranking, and it still outranks every remaining position |
| Indexer.RankDescending | src/indexer.py:51 | every position exactly once, in non-increasing score order, ties in any order |
| Indexer.AfterFit | src/indexer.py:24-39 | docs is always replaced; each exception leaves its own mix of old and new fields; on success there is one id per document, a fitted vectorizer and a matrix row per document text |
| Indexer.HeritageIndexer.constructor | src/indexer.py:18-22 | a new index has no vectorizer, no ids, no documents and no matrix |
| Indexer.HeritageIndexer.Fit | src/indexer.py:24-39 | the fields and the outcome are `AfterFit` of the old fields; on success the index is fitted and aligned |
| Indexer.HeritageIndexer.Search | src/indexer.py:41-62 | "not fitted" without a vectorizer or matrix; otherwise `SliceLen(n, top_k)` distinct positions ranked by score, each result built from one position; an aligned fitted index always succeeds |
| Indexer.HeritageIndexer.Save | src/indexer.py:64-75 | the path holds the four fields |
| Indexer.HeritageIndexer.Load | src/indexer.py:77-85 | a missing or unreadable file fails and changes nothing; otherwise all four fields become the saved ones |
| Indexer.HeritageIndexer.LoadOrBuild | src/indexer.py:87-97 | a successful load is kept; when it fails, without documents the error is re-raised with nothing changed; with documents the fields become `AfterFit` of the old ones, and the index is saved exactly when that fit succeeds |
| Indexer.SearchBeforeFit | src/indexer.py:46-47 | searching a new index fails with "not fitted" |
| Indexer.SearchAfterFit | src/indexer.py:30-62 | right after a successful fit, a search returns min(top_k, n) results |
| Indexer.SampleDocs | tests/test_indexer.py:5-9 | the test's three documents and their indexed texts |
| Indexer.BasicSearch | tests/test_indexer.py:11-17 | when the temple document scores strictly highest and above 0, the first of two results is "a" with a positive score |
| Cli.LoadJsonRoot | src/cli.py:31-44 | a non-dict root is returned unchanged; a dict root yields the first of sites/rows/data/results/features holding a list, else its first list value, else the singleton [data] |
| Cli.FirstListUnderExtended | src/cli.py:35-38 | searching more keys after a hit finds the same list |
| Cli.AgreesWithFetcher | src/cli.py:35-38 | where the fetcher finds a list under one of its four keys, `load_json` returns the same list |
| Cli.DictWithoutListsIsSingleton | src/cli.py:40-43 | a dict with no list value yields [data] in `load_json` and [] in the fetcher |

## Definitions

These functions define a Python expression the source evaluates. Their contracts state that definition. The properties about them are proved by the members of the table above.
- `Text.Lower`, `Text.Capitalize`: `lower()` and `capitalize()` on ASCII letters (src/fetcher.py:541-545, 566). See `Text.LowerIdempotent` and `Text.CapitalizeOnlyChangesCase`.
- `Json.PyStr`: `str(v)` (src/fetcher.py:100).
- `Records.CountryParts`: the texts of the elements of a list-valued country (src/fetcher.py:106-109). See `Records.ListCountryIsJoined`.
- `Enrich.RawOf`: `s.get("raw") or {}` (src/fetcher.py:591).
- `Indexer.DocId`, `Indexer.DocIds`: `str(d.get("id", i))` for each document (src/indexer.py:31). See `Indexer.PositionalIdsDistinct`.
- `Indexer.FieldText`, `Indexer.DocText`: `(d.get(k) or "")` and a document's indexed text (src/indexer.py:33). See `Indexer.Texts`.
- `Indexer.SliceLen`: `len(a[:k])` (src/indexer.py:51). `Indexer.HeritageIndexer.Search` uses it for the number of results.
- `Indexer.Scores`: the similarity of the query with each matrix row (src/indexer.py:50).
- `Indexer.HeritageIndexer.HitAt`: one result record built from one position (src/indexer.py:53-61).
- `Json.Truthy`: Python truthiness of a JSON value, as in `if scraped.get(k)` (src/fetcher.py:411).
- `Json.Lookup`: `d[k]` when `k in d`, else None (src/fetcher.py:81-82, 95). See `Json.LookupFindsKeys`.
- `Records.CountryText`: the text of a list-valued country: `str(c.get("name"))` for a dict, `str(c)` otherwise (src/fetcher.py:105-109). See `Records.ListCountryIsJoined`.
- `Country.AliasKey`: `country_name.strip().rstrip(".;")` (src/fetcher.py:537-539). See `Country.BlankKeyMapsToAsia`.
- `Rss.DescriptionText`: the unescaped, tag-stripped and stripped description text (src/fetcher.py:388-389).
- `Rss.BaseRecord`: the record before any scrape (src/fetcher.py:396-404). See `Rss.BaseRecordFields` and `Rss.UnfollowedRecord`.
- `Rss.MergeScraped`: the merge of the truthy scraped fields and of `raw["scraped_url"]` (src/fetcher.py:407-414). See `Rss.FollowedRecord`.
- `Rss.ItemRecord`: the record of one item, scraped when the link is followed (src/fetcher.py:396-417). See `Rss.UnfollowedRecord`, `Rss.FollowedRecord` and `Rss.CollectRecords`.
- `Enrich.NeedsEnrichment`: a site misses its country, latitude or longitude (src/fetcher.py:595-597). See `Enrich.ScrapableSiteUpdated` and `Enrich.UnscrapableSiteKept`.

## Left out

- Network fetching and page scraping are not modelled. `_scrape_site_page` is an oracle that may fail; `fetch_unesco_list` and `_scrape_unesco_list_html` are left out. They are HTTP requests, sleeps and HTML heuristics.
- TF-IDF numerics are not modelled: tokenisation, stop words, n-grams, IDF weights and the 10,000-term cap. A fit is an oracle that accepts or rejects a corpus, and the cosine similarity is an oracle per row. Both are floating-point library code.
- Indexer.HeritageIndexer.Search: a shape error of `linear_kernel`, raised when the vectorizer and matrix come from different fits, is not modelled. That happens only with a state file not written by `save`.
- Indexer.HeritageIndexer.Load: the state is always a file `save` wrote, or an unreadable one. A pickle with missing keys or of another type is not modelled.
- Indexer.HeritageIndexer.Save: directory creation and write failures are file-system I/O and are not modelled.
- File reads and writes are left out: the raw RSS copy, the JSON outputs of the loader, the progress and final saves of `enrich_sites`, and the file read of `load_json`. Only `save_every` is kept, through the division error it can raise.
- Enrich.EnrichSites: the list holds values. The in-place change of the very dict objects is not modelled, so aliasing is not captured: a dict shared by two list positions, or a `raw` dict shared elsewhere.
- Rss.LoadSitesFromRss: `ET.fromstring`, `findall(".//item")`, `ET.tostring`, `html.unescape` and BeautifulSoup are oracles, since they are XML and HTML libraries.
- Records.NormalizeSiteRecord: `float()` is an oracle that may raise. Python's `str()` of a list or dict is modelled with single quotes and no escaping. The text `str()` prints for a number is carried with the number.
- Country.CountryToContinent: case folding and the word characters of `\b` are ASCII only. Python's full Unicode lower-casing and Unicode word characters are not modelled.
- Country.RemoveLabel: case-insensitive matching is ASCII only. Python's Unicode case-insensitive matching, for example 'ſ' matching 's', is not modelled.
- Rss.SiteIdFromLink: `\d` is ASCII digits only. Other Unicode decimal digits are not modelled.
- The HTTP API (`src/api.py`), the feedback log (`src/feedback.py`), the command-line plumbing, `run_api.py` and `scripts/` are left out. They are I/O, routing and orchestration with no logic of their own beyond what is modelled here.
- Logging is left out.
- JSON dicts: the entries of a dict are not constrained to distinct keys. A lookup takes the first entry with a key. On any dict Python can build, whose keys are distinct, that is Python's lookup, and the first list value `FirstListValue` finds is the value under its key.
