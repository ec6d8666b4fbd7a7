# apartment-eagle, modelled in Dafny

apartment-eagle watches the rental listings of a few estate agencies. One
watch cycle works like this:

1. The configuration is checked.
2. Each agency's listings page is scraped. The CSS selector of the listings
   container is cached per agency; the DeepSeek oracle is asked for it when
   it is missing.
3. The listing URLs are extracted from that container.
4. They are compared with the URLs stored on the previous cycle.
5. For an agency with new URLs, the oracle is asked whether any listing
   matches the search criteria.
6. The matches are sent in one notification.
7. The URLs of this cycle are merged into the store.

A second pipeline does three things:
- it classifies URLs in batches of 50 as listing detail pages or not;
- it fetches the pages that pass a confidence threshold;
- it asks the oracle to judge each page.

This project models the decision logic of all of that. Every network,
oracle, browser and storage call becomes a parameter (a function value) or an
in-memory value:

- `Wrappers`, `Text`: Option/Result; string and sequence helpers (JavaScript `trim`,
  ASCII lower-casing, `join`, `split`, `Set`-style deduplication that keeps first occurrences).
- `Oracle`: a DeepSeek reply (failed, or answered with optional content), its trimmed
  content, and the markdown-fence stripping applied before `JSON.parse`.
- `UrlExtractor`: the `href` scan, the ad-hoc absolutisation, the exclusion filter and
  the deduplication of `extractUrlsFromHtml`; `hasNewUrls`.
- `Agencies`, `Watcher`: the per-agency URL history and the JSON file store, as a class
  whose `file` field the load and save methods read and replace.
- `Database`: the Prisma-backed store as a class over a sequence of `(url, agency)` rows;
  grouping on load, flattening and upsert on save.
- `Config`: `validateConfig`, the environment defaults, JavaScript `parseInt`, and the two
  configured agencies.
- `Flatten`: `flattenHTML` over an abstract DOM tree, with the shared `output` array.
- `SelectorFinder`, `Scraper`: the selector reply parser, the selector acceptance rule,
  the selector cache, `scrapeAgency` and `scrapeAllAgencies`.
- `Evaluator`: `evaluateListing`: truncation, optional prompt sections, `"ERROR"` fallback.
- `Cycle`: `main` of `src/index.ts`: per-agency change detection, the verdict test,
  aggregation of evaluations and URLs to save, the notification decision, the save.
- `UrlClassifier`, `DetailScraper`, `DetailEvaluator`: batching, grouping by agency,
  numbering, batch failures, the detail-page threshold, the transport choice, and the
  per-property evaluation with its fallbacks.

Behaviours of the code that the model keeps as written:

- `classifyUrlsBatch` has no shortcut for small inputs. Only an empty input
  returns early. Its result is the oracle's output as parsed: it is neither
  validated nor one classification per input.
- A relative `href` over an agency URL that `new URL` rejects throws. That
  abandons the extraction of the whole page; it does not skip the one link.
- The watcher's save writes only the agencies it is given. The history of an
  agency whose scrape failed is therefore dropped from the file, and on the
  next cycle all its URLs count as new (`Cycle.FailedScrapeWipesHistory`).
- `agency.javascript` is not a field of the configured `Agency` interface, so
  every configured agency is fetched over plain HTTP
  (`DetailScraper.ConfiguredAgenciesUseHttp`).
- `main` calls `saveListings`, but `src/services/watcher.ts` does not export
  it. The model ends the cycle with the URL save.
- `sendBatchNotification` catches its own mail errors, so the URLs are saved on
  every cycle that passes the configuration check.

## Model

| member | source | states |
|---|---|---|
| UrlExtractor.Hrefs | src/utils/urlExtractor.ts:9-13 | every captured `href` value is non-empty and holds no quote character |
| UrlExtractor.AbsoluteAll | src/utils/urlExtractor.ts:12-27 | the normalisation fails iff some href cannot be made absolute; otherwise one URL per href, in order, each that href's absolute form |
| UrlExtractor.FromHrefs | src/utils/urlExtractor.ts:12-64 | an error iff some href cannot be made absolute; otherwise the output has no duplicates, holds only URLs matching no exclusion pattern, and holds every non-excluded absolutised href |
| UrlExtractor.Extract | src/utils/urlExtractor.ts:5-65 | the same of the hrefs scanned from the page: duplicate-free, exactly the non-excluded absolute forms of its hrefs, an error iff a relative href meets an unparseable agency URL |
| UrlExtractor.ExtractUrlsFromHtml | src/utils/urlExtractor.ts:5-65 | the push loop and filter compute `Extract` |
| UrlExtractor.ExtractKeepsFirstSeenOrder | src/utils/urlExtractor.ts:64 | output URLs appear in the order of their first occurrence among the kept URLs |
| UrlExtractor.BasePathIgnored | src/utils/urlExtractor.ts:17-23 | the path of the agency URL plays no part: two bases with the same protocol and host give the same extraction |
| UrlExtractor.HasNewUrls | src/utils/urlExtractor.ts:70-79 | true iff some extracted URL is not in `excludeUrls`; an error exactly when extraction throws |
| UrlExtractor.NothingNewWhenAllExcluded | src/utils/urlExtractor.ts:70-79 | when `excludeUrls` covers every extracted URL the answer is false |
| UrlExtractor.ContactExcluded | src/utils/urlExtractor.ts:33 | any URL ending in `/contact` is excluded |
| UrlExtractor.StylesheetExcluded | src/utils/urlExtractor.ts:43 | every URL ending in `.css` is excluded |
| UrlExtractor.AnchorExcluded | src/utils/urlExtractor.ts:54 | every URL containing `#` is excluded |
| UrlExtractor.ExampleHrefsMadeAbsolute | src/utils/urlExtractor.ts:17-23 | rooted hrefs get `protocol//host` prepended, other relative hrefs `protocol//host/` |
| UrlExtractor.ListingPageExample | src/utils/urlExtractor.ts:17-64 | hrefs `/listing/42`, `/contact`, `styles.css`, `#top` yield only the listing URL, for any agency whose listing URL is not itself excluded |
| UrlExtractor.ExampleListingPage | src/utils/urlExtractor.ts:17-64 | over https://example.com those hrefs yield exactly `["https://example.com/listing/42"]` |
| Watcher.Merged | src/services/watcher.ts:30-39 | the merged map has exactly the incoming agencies as keys, each with a duplicate-free list |
| Watcher.JsonStore.LoadScrapedUrls | src/services/watcher.ts:8-18 | returns `Loaded(file)`, so after a save it gives what `Watcher.SavedThenLoaded` states |
| Watcher.SavedThenLoaded | src/services/watcher.ts:8-59 | loading after a save gives exactly the saved agencies; each list is duplicate-free and holds exactly the stored and the new URLs of its agency |
| Watcher.JsonStore.SaveScrapedUrls | src/services/watcher.ts:20-59 | a successful write replaces the file by the merge of its contents with the argument; a failed one changes nothing and is not reported |
| Watcher.MergeKeepsHistory | src/services/watcher.ts:33-37 | a merged agency's list holds exactly its stored URLs and its new URLs |
| Watcher.MergeExtendsHistory | src/services/watcher.ts:33-39 | the stored list is a prefix of the merged list |
| Watcher.MergeDropsAbsent | src/services/watcher.ts:30-52 | an agency stored before but absent from the argument is dropped |
| Watcher.MergeIdempotent | src/services/watcher.ts:32-39 | merging the same argument twice equals merging it once |
| Watcher.SaveTwiceIsSaveOnce | src/services/watcher.ts:20-52 | saving the same argument twice leaves the file of one save |
| Watcher.SaveOverUnreadable | src/services/watcher.ts:27-39 | over an unreadable file the save stores each argument list deduplicated |
| Watcher.SavedWithoutNewUrls | src/services/watcher.ts:31-38 | an agency saved with no new URLs keeps its stored list, deduplicated |
| Database.ScrapedUrlTable.LoadScrapedUrls | src/services/database.ts:6-35 | the rows grouped by agency, or `{}` when the database is unreachable |
| Database.ScrapedUrlTable.SaveScrapedUrls | src/services/database.ts:37-82 | rows stay unique and the old rows stay in place; afterwards a pair is stored iff it was stored before or its URL is listed under its agency and its upsert was accepted; an accepted upsert counts even when another one fails; when all are accepted the rows are the upsert of a whole flattening of the argument |
| Database.FlattenRecords | src/services/database.ts:42-51 | each agency's records list its URLs in order, and the record count is the sum of the list lengths |
| Database.PushBlock | src/services/database.ts:45-50 | appends one record per URL of the agency, in order, after the records already built |
| Database.Upserted | src/services/database.ts:54-72 | the stored pairs are the old pairs together with the new ones; old rows are kept in place |
| Database.UpsertedKeepsNoDups | src/services/database.ts:54-72 | no pair is stored twice |
| Database.GroupFlattenRoundTrip | src/services/database.ts:16-23 | grouping a flattening of a map gives the map without its empty lists |
| Database.GroupedIsUrlsOf | src/services/database.ts:16-23 | an agency is a key iff some record has it, and its list is its records' URLs in order |
| Database.UrlsOfMembers | src/services/database.ts:18-23 | a URL is in an agency's list iff the pair is a record |
| Database.LoadedGroupsNonEmpty | src/services/database.ts:18-23 | loaded lists are never empty and hold exactly the agency's recorded URLs |
| Config.MissingNames | src/config/config.ts:59-60 | the missing names are exactly the required names that are unset or empty |
| Config.ValidateConfig | src/config/config.ts:58-66 | an error iff some required variable is missing, with the message listing the missing names joined by ", " |
| Config.MissingNamesInOrder | src/config/config.ts:59-64 | the missing names keep the fixed order of the required list |
| Config.EmptyCountsAsMissing | src/config/config.ts:60 | a required variable set to "" fails validation |
| Config.ParseIntDecimal | src/config/config.ts:20-31 | `parseInt` reads back a decimal numeral |
| Config.ParseIntLeadingDecimal | src/config/config.ts:20-31 | `parseInt` stops at the first non-digit after a numeral |
| Config.Defaults | src/config/config.ts:19-34 | with the variables unset: host smtp.gmail.com, port 587, interval 30, retries 3, delay 2000, server port 3000, log level info |
| Flatten.Spaces | src/services/flatten-thml.ts:15 | `2 * indent` spaces |
| Flatten.Flattener.ProcessElement | src/services/flatten-thml.ts:7-38 | appends exactly the node's lines to `output` |
| Flatten.Flattener.ProcessChildren | src/services/flatten-thml.ts:27-36 | appends exactly the lines of the children, in order: trimmed non-blank text one level deeper, `tag` children recursively, other nodes nothing |
| Flatten.FlattenHTML | src/services/flatten-thml.ts:3-44 | the lines of the body's children, in order, joined by "\n" |
| Flatten.FirstLineIsHeader | src/services/flatten-thml.ts:8-24 | a node emits lines iff it has a tag name; its first line is its header, followed by the text of a text-only element |
| Flatten.TextOnlyIsOneLine | src/services/flatten-thml.ts:18-24 | an element whose only child is text emits one line: header, ": ", trimmed text |
| Flatten.HeaderShape | src/services/flatten-thml.ts:11-15 | the header is the indent, "[", the tag, the attributes when present, and "]" |
| Flatten.LinesNested | src/services/flatten-thml.ts:25-36 | every line of a node is at its indent, and every line after the header at least one level deeper |
| Flatten.OnlySkippedChildren | src/services/flatten-thml.ts:27-36 | scripts, styles and other nodes add no line |
| Flatten.BlankTextSkipped | src/services/flatten-thml.ts:28-31 | blank text children add no line |
| Flatten.BodyLinesAppend | src/services/flatten-thml.ts:40-42 | the body's lines are its children's lines in document order |
| SelectorFinder.BacktickedIsFirstMatch | src/services/selector-finder.ts:27-30 | the backticked text found is that of the leftmost match of the pattern, and none is found iff the pattern matches nowhere |
| SelectorFinder.LineSelector | src/services/selector-finder.ts:16-30 | a qualifying line yields a non-empty selector |
| SelectorFinder.FirstSomeIsFirstMatch | src/services/selector-finder.ts:14-32 | the scan returns at the first qualifying line, and gives null iff no line qualifies |
| SelectorFinder.ExtractSelectorFromResponse | src/services/selector-finder.ts:12-33 | a returned selector is never empty |
| SelectorFinder.SelectorLineReturned | src/services/selector-finder.ts:16-25 | a first line starting with ".", "#" or "[" is returned trimmed, as it stands |
| SelectorFinder.SingleLineResponse | src/services/selector-finder.ts:14-31 | a response without line breaks is judged as one line |
| SelectorFinder.Sample | src/services/selector-finder.ts:42-46 | the sample is a prefix of the body content of at most 40000 characters, the whole content when it is short enough |
| SelectorFinder.Candidate | src/services/selector-finder.ts:74 | the extracted selector, or the whole trimmed response when none is found |
| SelectorFinder.PromptFor | src/services/selector-finder.ts:42-46 | the sample is a prefix of the body's HTML, or of the page when the body is empty |
| SelectorFinder.FindSelectorsWithAI | src/services/selector-finder.ts:35-98 | never empty; a result other than "body" is the candidate of a non-empty answer and selects at least one element; no answer gives "body" |
| SelectorFinder.AcceptRule | src/services/selector-finder.ts:83-90 | the candidate is accepted iff it selects something and is not "body" |
| Scraper.Extracted | src/services/scraper.ts:71-89 | the page is non-empty iff the selector picked out a non-empty container |
| Scraper.ScrapeRun | src/services/scraper.ts:120-129 | one attempt per configured agency, in order, each naming its agency and page |
| Scraper.SelectorStore.LoadSelectors | src/services/scraper.ts:18-24 | returns the loaded cache |
| Scraper.SelectorStore.SaveSelectors | src/services/scraper.ts:26-29 | a successful write stores the map; a failed one changes nothing |
| Scraper.SelectorStore.ScrapeAgency | src/services/scraper.ts:31-118 | the listing carries the agency's name and URL and the scrape's page, and the cache becomes the scrape's cache |
| Scraper.SelectorStore.ScrapeAllAgencies | src/services/scraper.ts:120-129 | the listings are the successful attempts in configuration order |
| Scraper.CachedSelectorSkipsOracle | src/services/scraper.ts:42-46 | with a cached selector the oracle's answer does not matter and the cache is unchanged |
| Scraper.CacheGainsOnlyAgencyName | src/services/scraper.ts:42-60 | the cache changes only when no selector was cached, the oracle gave one other than "body" and the write succeeded; it then gains exactly the agency's entry, holding the selector `findSelectorsWithAI` returned |
| Scraper.BodySelectorFails | src/services/scraper.ts:63-68 | a cached "body" selector fails the scrape |
| Scraper.SuccessNeedsContent | src/services/scraper.ts:31-108 | a successful scrape fetched the page and used a selector other than "body" that picked out content |
| Scraper.UnreadableFileIsEmptyCache | src/services/scraper.ts:18-24 | a missing or corrupt file caches nothing |
| Scraper.ScrapeAllKeepsSuccesses | src/services/scraper.ts:120-129 | every kept listing has a page and names its agency and URL; successful attempts are all kept |
| Scraper.FailedAgencyDropped | src/services/scraper.ts:124 | an agency whose scrape failed has no listing |
| Evaluator.HtmlContent | src/services/evaluator.ts:33-36 | the page when it has at most 50000 characters, else its first 50000 |
| Evaluator.UrlSection | src/services/evaluator.ts:44-52 | empty iff there are no URLs; otherwise the heading and the URLs joined by ", " |
| Evaluator.EvaluateListing | src/services/evaluator.ts:25-122 | never empty; the trimmed answer when the reply has non-blank content, otherwise "ERROR" (failed call, no content, or blank content) |
| Evaluator.TailIgnored | src/services/evaluator.ts:33-36 | pages that agree on their first 50000 characters get the same answer |
| Evaluator.NoSectionsWithoutUrls | src/services/evaluator.ts:44-52 | with no URLs, neither section appears |
| Oracle.TrimmedContent | src/services/urlClassifier.ts:146-149 | present iff the call succeeded with content holding a non-white-space character; the value is that content trimmed: non-empty, without white space at either end, and occurring in the content |
| Oracle.CloseAtNoneIff | src/services/urlClassifier.ts:151-165 | no closing fence is found iff none occurs after the opener |
| Oracle.FenceMatchNoneIff | src/services/urlClassifier.ts:151-165 | a fenced block is matched iff a closing fence follows the opener |
| Oracle.FencedTextHasNoFence | src/services/urlClassifier.ts:151-165 | the extracted inner text contains no fence |
| Oracle.UnclosedJsonFenceParsedWhole | src/services/urlClassifier.ts:154-158 | content with "```json" and no closing fence is parsed whole |
| Oracle.UnfencedParsedWhole | src/services/urlClassifier.ts:151-165 | content without fences is parsed whole |
| UrlClassifier.BatchesPartition | src/services/urlClassifier.ts:30-37 | the batches concatenate to the input, number ceil(n/50), and hold between 1 and 50 items each |
| UrlClassifier.AgencyUrlFor | src/services/urlClassifier.ts:89-90 | an agency URL exists iff the agency occurs |
| UrlClassifier.GroupByAgency | src/services/urlClassifier.ts:84-93 | the Map filled by the loop, in insertion order, is the grouping of the batch |
| UrlClassifier.GroupSizesSum | src/services/urlClassifier.ts:84-93 | the group sizes sum to the batch size |
| UrlClassifier.GroupingOrder | src/services/urlClassifier.ts:84-93 | one group per distinct agency, in first-appearance order |
| UrlClassifier.AgencyUrlIsFirst | src/services/urlClassifier.ts:89-90 | a group's agency URL is that of its first item |
| UrlClassifier.GroupUrls | src/services/urlClassifier.ts:92 | a group's URLs are exactly its agency's items' URLs |
| UrlClassifier.ItemNumbering | src/services/urlClassifier.ts:123-125 | item k is numbered k+1 and ends with its URL |
| UrlClassifier.BatchOutcome | src/services/urlClassifier.ts:73-179 | a batch succeeds iff there is content and it parses after fence stripping; no content fails with "No response from DeepSeek" |
| UrlClassifier.ClassifyUrlsBatch | src/services/urlClassifier.ts:23-71 | empty input gives []; otherwise the concatenated results of the batches in order |
| UrlClassifier.ClassifyInBatches | src/services/urlClassifier.ts:34-63 | the loop collects the outcomes of the batches, in order |
| UrlClassifier.CollectedAppend | src/services/urlClassifier.ts:43-62 | batches contribute independently, in order |
| UrlClassifier.FailedBatchSkipped | src/services/urlClassifier.ts:57-62 | a failing batch adds nothing and later batches still run |
| UrlClassifier.CollectedMembers | src/services/urlClassifier.ts:43-62 | a classification is returned iff some successful batch returned it |
| DetailScraper.Fetched | src/services/detailScraper.ts:116-127 | one attempt per page, in order: attempt i has page i's URL, the agency name, and the fetched page or "" when the fetch throws |
| DetailScraper.ScrapeDetailPages | src/services/detailScraper.ts:93-139 | the fetched pages that passed the threshold and were retrieved, in order; [] when none passes |
| DetailScraper.ThresholdIff | src/services/detailScraper.ts:97-99 | a page passes iff it is a detail page with confidence at least 5; 4 fails and 5 passes |
| DetailScraper.DetailsFromPages | src/services/detailScraper.ts:116-133 | at most one detail per page, each with its page's URL, the agency name and the fetched HTML |
| DetailScraper.FailedFetchSkipped | src/services/detailScraper.ts:36-46 | a failed fetch is omitted and the remaining pages are still fetched |
| DetailScraper.ConfiguredAgenciesUseHttp | src/config/config.ts:4-12 | `Agency` has no `javascript` field, so the transport choice of `scrapeDetailPages` picks plain HTTP for every configured agency |
| DetailEvaluator.EvaluatePropertyDetail | src/services/detailEvaluator.ts:31-122 | the result carries the input property, and matches iff an answer parsed to a match |
| DetailEvaluator.Fallbacks | src/services/detailEvaluator.ts:72-75 | a failed call or empty answer is a non-match whose reasoning starts "Error during evaluation: "; an unparseable answer gives "Failed to parse AI evaluation response" |
| DetailEvaluator.ParsedVerdictKept | src/services/detailEvaluator.ts:92-93 | a parsed verdict is kept, with the input property |
| DetailEvaluator.EvaluateAllProperties | src/services/detailEvaluator.ts:124-165 | one evaluation per input, in order |
| DetailEvaluator.EvaluateInOrder | src/services/detailEvaluator.ts:137-157 | the loop evaluates each property in turn |
| DetailEvaluator.OnePerInput | src/services/detailEvaluator.ts:137-157 | evaluation i is about property i and matches iff its answer parsed to a match |
| Cycle.NewUrls | src/index.ts:72-74 | exactly the current URLs not previously seen, never more than the current ones |
| Cycle.Changed | src/index.ts:58-65 | changed iff the current and previous URL sets differ |
| Cycle.ProcessListing | src/index.ts:50-118 | the result names the listing's agency and carries the extracted URLs, or [] when extraction threw |
| Cycle.Aggregate | src/index.ts:124-145 | the loop builds the evaluations and the URLs to save |
| Cycle.RunCycle | src/index.ts:34-161 | a failed configuration check changes nothing; otherwise the cache is the scrape's, a notification is sent iff there are evaluations, and the URLs are saved either way |
| Cycle.EvaluationGate | src/index.ts:65-96 | an evaluation is recorded iff extraction succeeded, some URL is new and the answer contains "YES" or "CLOSE"; it records the agency's listing page |
| Cycle.HasNewIffNewUrls | src/index.ts:58-76 | some URL is new iff the new-URL list is non-empty, and then the agency has changed |
| Cycle.OracleUnusedWithoutNewUrls | src/index.ts:70-87 | without new URLs the oracle is not consulted and there is no evaluation |
| Cycle.FirstVisitAllNew | src/index.ts:55-74 | an agency with no stored history has all its URLs new |
| Cycle.EvaluationsAreMatches | src/index.ts:133-141 | evaluations are exactly the results' verdicts |
| Cycle.UrlsToSaveKeys | src/index.ts:143-144 | every processed agency, and no other, has URLs to save |
| Cycle.UrlsToSaveEntry | src/index.ts:144 | each agency's entry is its result's URLs |
| Cycle.ConfiguredNamesDistinct | src/config/config.ts:36-55 | the configured agency names are distinct |
| Cycle.FailedScrapeWipesHistory | src/index.ts:133-145 | an agency whose scrape failed is absent from the saved file, so all its URLs look new next cycle |
| Cycle.ExtractionErrorKeepsHistory | src/index.ts:111-116 | an agency whose extraction threw keeps its stored history |
| Cycle.RerunIsQuiet | src/index.ts:58-76 | after saving, the same pages give no new URL and no evaluation |
| Cycle.SavedCoversCurrent | src/index.ts:144 | after a save an agency's stored list covers its current URLs |
| Cycle.NothingNewWhenCovered | src/index.ts:58-76 | a previous list holding every current URL gives no new URL |

## Left out

- I/O and timing: file system, Prisma, HTTP, the browser, timestamps (`scrapedAt`),
  `setTimeout` delays and logging. These become parameters, in-memory values, or nothing.
- The DeepSeek calls. Each oracle is a function from a prompt value to a reply. Only
  the parts of a prompt that depend on the input are modelled; the fixed wording is not.
- `JSON.parse` and the validity of the JSON shapes are abstract partial functions.
  cheerio's parse, selection and clean-up are abstract functions.
- The `Promise.all` fan-out is modelled sequentially. Each agency is processed
  independently, so the order of results is that of the listings.
- Scheduling in `src/index.ts` (random intervals, `setTimeout`), `src/services/notifier.ts`
  (SMTP delivery and markdown conversion), `src/server.ts` and `scripts/setup-db.js`.
- `saveListings` is called by `main` but not defined by `src/services/watcher.ts`. The
  modelled cycle ends with the URL save.
- `getSharedBrowser` is not exported by `src/services/scraper.ts`. The rendered transport is
  an abstract fetch selected by a boolean.
- The outer catches of `scrapeDetailPages` and `evaluateAllProperties` are left out, since
  no exception reaches them. Their messages ("Evaluation failed: ") are not modelled.
- Database.PickAgency: `Object.entries` order is not modelled; the flattening is stated for
  some order of the agencies, and `findMany` row order is taken as insertion order.
- Database.ScrapedUrlTable.SaveScrapedUrls: the accepted upserts are appended in record order; run
  concurrently they may commit in any order, which changes the order of the rows (and of a
  loaded list) but not which pairs are stored. Two concurrent upserts of the same pair are
  taken to commit once.
- Watcher.JsonStore.SaveScrapedUrls: a failed write is taken to leave the file as it was. A
  write that fails partway (a full disk) can leave a truncated file, which the next load reads
  as `{}`.
- Scraper.SelectorStore.SaveSelectors: the same assumption about a failed write of the
  selector file; a truncated file would read as an empty cache.
- Config.ParseIntDecimal: `parseInt` is modelled on unbounded integers, without the
  precision loss of numbers above 2^53.
- Strings are sequences of characters: UTF-16 surrogate pairs and case folding beyond ASCII
  are not modelled.
