# A verified model of the scraping service

This project models the stateful core of the service in Dafny and proves what it keeps over
every run, every input and every interleaving. `dafny verify dfyconfig.toml` checks all of it.

The parts, each in the modules named after it:

- **Job service** (`JobModel`, `JobInvariants`, `JobSafety`, `JobEffects`, `JobService`). A store
  of jobs, a queue and a pool of workers as a transition system. No lock block of the code contains
  an `await`, so every stretch between `queue.get` and `scraper.scrape` is one atomic event. The
  theorems speak of every reachable state and every run; the class works on mutable job objects
  in place, and each of its methods is proved to be the event of the system.
- **HTML normaliser** (`Text`, `HtmlTree`, `HtmlWhitespace`, `Srcset`, `HtmlPipeline`, `HtmlRules`,
  `HtmlSoup`). Trees with the passes as functions, fusion, idempotence and preservation by
  induction, and the resolving of `srcset` lists down to their text; the class runs the loops of
  the code over listed nodes, and each loop is proved to be its tree pass.
- **Cache maintenance** (`IsoTime`, `SizeSweep`, `CacheTable`, `SqliteCache`). Tables of rows in
  scan order, `ORDER BY` as a stable sort of the stored texts, the batch arithmetic of the size
  cleanup, and the theorem that text order is time order.
- **Search** (`SearchModels`, `Routing`, `SearchRouter`, `SearchKey`, `SearchCacheModel`,
  `SearchCache`). `Routing` says what a route does as a function of what the providers answer;
  `SearchRouter` holds the loops, registry and counters and is proved against it. The cache is a
  transition system over suspended searches, cleanups and corruption of rows; the cache object
  carries its state along, and each of its two stretches is proved to be a step of it. Keys are
  characterised exactly.
- **Browser drivers** (`FetcherModel`, `BrowserFetcher`, `FrozenConfig`, `FetcherPool`). Fetches,
  closes and timer callbacks that may come late; which configurations share a key; the pool as
  least recently used eviction that refines the request history.
- **Interactive browser** (`SessionModel`, `SessionSafety`, `SessionRules`, `SessionEffects`,
  `SessionPrivacy`, `SessionPurge`, `SessionCap`, `BrowserService`). Operations that suspend at provider calls and
  at locks; the tab cap, what is admitted and recorded, what operations achieve for good, the separation of profiles stretch by
  stretch and over whole runs, and what the session cap needs.
- **Scrape orchestrator and keys** (`ScrapeService`, `UrlText`, `CacheKey`, `JsonText`). The mode
  fallback with its attempts, the stale answer, the text of a normalised URL read back by the
  parser, and injectivity of the key material down to the escapes of the JSON text.

`Sequences`, `Splitting` and `StringOrder` hold the library operations the service relies on:
filters, the stable sort, splitting and joining of texts, and their comparison by code point.

Providers, pages, browsers, clocks, storage faults and URL resolution are parameters: an
operation is proved for whatever they answer. Times are integers (microseconds), except in
`IsoTime`, where they are calendar fields. SHA-256 is taken to be injective.

Results that are not plain confirmations:

- The size cleanup can delete up to 99 rows more than needed, although its comment says it does
  not overshoot. Every number up to 99 occurs (`SizeSweep.OvershootOccurs`), and
  `SizeSweep.ExactSweepIff` says for any sizes exactly when no row too many goes.
- The whitespace passes put a changed doctype, declaration or CDATA section back as ordinary
  text; `HtmlWhitespace.SpecialsThatSurvive` says exactly which stay what they are. The minify
  pass removes blank text everywhere outside the preserving tags, not only between block
  elements as its comment says.
- The cap on a profile's sessions can fail (`SessionCap.RevivalBreaksCap`): an operation that
  ends after its session has expired revives it. `SessionCap.SessionCapIff` gives the exact
  condition over whole runs: the caps hold exactly when that never happens to a full profile.
  With operations taken as atomic it cannot happen (`SessionCap.AtomicCap`).
- Normalising a URL twice is not always normalising it once, because the second run parses the
  text that the first one wrote. `UrlText.NormalizeTwiceIff` gives the exact condition. It fails
  for `http://h//` (the path loses its slashes), for `http://h/a;/` and `http://h/a/;b/` (the
  stripped path ends in a segment with a semicolon, which reads as parameters), and for
  `http://[::1]/` (the brackets are lost and the port no longer reads).
- Resolving a `srcset` twice is not resolving it once when a resolved URL has a comma, as below
  the bases `http://a/x,y/` and `http://a/x,,y/`: the comma splits the entry
  (`Srcset.ResolveTwiceIff`). Apart from
  URLs that do not resolve to themselves again, this is what keeps the HTML pipeline from being
  idempotent (`HtmlPipeline.NormalizeTwiceIff`).
- `_freeze` forgets more than the order of dictionaries: lists are tuples, and a nested dictionary
  is its sorted list of pairs. `FrozenConfig.FreezeIff` gives the exact relation. The collision
  is unreachable from `_browser_fetcher_args` (app/scraper/service.py:131-140), which holds
  scalars, one list and one tuple: there equal keys are equal settings
  (`FrozenConfig.SharedFetcherIff`).
- A lifetime of zero in a scrape request falls through to the next lifetime, as `or` does.
- The description of the `stale` flag in app/search/models.py speaks of a background refresh;
  the code serves stale data only after a failed live search, and the model follows the code.

## Model

| member | source | states |
|---|---|---|
| `JobSafety.StepInv` | app/jobs/service.py:104-353 | Every atomic stretch (create, cancel, delete, dequeue, finish with any outcome, cancelled idle worker) keeps all invariants at once: queue shape, status and field agreement, ownership of running jobs, start history, counters |
| `JobSafety.QueuedExactlyOnce` | app/jobs/service.py:130-155 | In every reachable state a stored queued job is at exactly one place of the queue |
| `JobSafety.RunningHeldOnce` | app/jobs/service.py:284-353 | The running jobs are exactly those a worker holds, no two workers hold the same one, and the running count is the number of busy workers, at most the pool size |
| `JobSafety.StartsFollowCreation` | app/jobs/service.py:277-296 | No job starts twice, starts follow creation order, and nothing still queued has started |
| `JobSafety.OutcomeFields` | app/jobs/service.py:316-345 | `result` is set exactly in SUCCEEDED and `error` exactly in FAILED |
| `JobSafety.Conservation` | app/jobs/service.py:153-192 | Jobs created are those succeeded, failed, cancelled, stored and queued, being run, or deleted while queued; each counter is the number of jobs in its status |
| `JobSafety.TerminalAbsorbs` | app/jobs/service.py:172-192 | A finished job never changes again, over any run |
| `JobSafety.BacklogStep` | app/jobs/service.py:272-353 | Every worker step strictly lowers 2 x queue length + busy workers, and no other step but a create raises it |
| `JobSafety.DrainBound` | app/jobs/service.py:272-353 | Without new jobs a run has at most 2 x queue length + busy workers worker steps |
| `JobSafety.EvictionIsOldestFirst` | app/jobs/service.py:357-379 | Retention drops only finished jobs: none while there is room for one more, otherwise exactly as many as make room, or all of them if there are fewer, and those oldest by `finished_at or created_at`, ties by creation |
| `JobSafety.RetentionBound` | app/jobs/service.py:357-379 | Over any run the store never exceeds the larger of `jobs_max_retained` and the peak number of stored queued and running jobs |
| `JobEffects.CreateCreates` | app/jobs/service.py:130-155 | A new job is found under its identifier, queued behind all others, which are untouched |
| `JobEffects.TakenFromHead` | app/jobs/service.py:277-296 | A woken worker takes the head of the queue: a stored queued job it starts, now, and holds; any other it leaves alone and stays idle |
| `JobEffects.FinishedForGood` | app/jobs/service.py:304-353 | From the end of a run on, over any run, the job holds what its scrape gave: the result on success, the error on failure, neither on cancellation, and the time; its identity, creation and start stay |
| `JobEffects.CancelledNeverStarts` | app/jobs/service.py:172-183 | From the call that cancels a queued job on, over any run, the job keeps the record the call left, is never started and is never held by a worker |
| `JobEffects.DeletedForever` | app/jobs/service.py:185-192 | From the call that deletes a job on, over any run, it is unknown under its identifier, and one deleted while queued never starts |
| `JobService.JobService.CreateJob` | app/jobs/service.py:104-160 | Over mutable job objects: evicts, stores and enqueues a new queued job made now, with neither result nor error; the new abstract state is the create step, and the invariants hold |
| `JobService.JobService.CancelJob` | app/jobs/service.py:172-183 | Cancels a queued job only; answers whether the job is stored; the new state is the cancel step |
| `JobService.JobService.DeleteJob` | app/jobs/service.py:185-192 | Removes the stored job, whatever its status; a worker keeps the object it runs |
| `JobService.JobService.TakeJob` | app/jobs/service.py:277-296 | Takes the head of the queue; skips a deleted or cancelled job, starts a queued one, whose object is then running since now |
| `JobService.JobService.FinishJob` | app/jobs/service.py:304-353 | The held object ends with the result or error of its outcome and the time, its origin kept; the worker is free, or ended on cancellation; the new state is the finish step |
| `JobService.JobService.StopWaiting` | app/jobs/service.py:91-98 | A cancelled worker that waits for the queue ends and leaves the jobs alone |
| `JobService.JobService.EvictOldestFinished` | app/jobs/service.py:357-379 | Gathering, stable sort and deletions in place leave the store that the specification of eviction gives |
| `HtmlTree.PassesFuse` | app/scraper/html_normalizer.py:140-171 | On every tree any sequence of removal and attribute passes that looks for hidden elements before it strips styles equals one top-down filter by all their tests with one attribute strip |
| `HtmlTree.PassOrderIrrelevant` | app/scraper/html_normalizer.py:140-171 | Such sequences with the same passes give the same tree: order and repetition do not matter |
| `HtmlTree.StyleBeforeHidden` | app/scraper/html_normalizer.py:140-151 | Stripping styles before the search for hidden elements agrees with the order of the code exactly when no element outside hidden subtrees is hidden by its style alone |
| `HtmlRules.PassesKeep` | app/scraper/html_normalizer.py:140-171 | The removal and attribute passes leave exactly what the active features do not name, each element judged as it was parsed: by its name, by being hidden, by its attributes' names, comments as such |
| `HtmlRules.NothingLeft` | app/scraper/html_normalizer.py:81-186 | In the normalised page no element, attribute or comment is left that the active features remove; with `remove_hidden`, no hidden element |
| `HtmlRules.HiddenIff` | app/scraper/html_normalizer.py:227-244 | Hidden is what carries `hidden`, `aria-hidden` true in any case, a style that says `display: none` or `visibility: hidden` anywhere, or is an input of type hidden in any case |
| `HtmlRules.PresetsKeep` | app/scraper/html_normalizer.py:40-70 | What each preset keeps and strips; all three tidy the whitespace and leave URLs alone, and any other name stands for nothing |
| `HtmlRules.AttributesResolved` | app/scraper/html_normalizer.py:259-280 | Non-empty `href`, `src`, `action` and `poster` are resolved, `srcset` entry by entry, and no other attribute changes |
| `HtmlRules.TextsTouched` | app/scraper/html_normalizer.py:302-357 | Comments and text directly below pre, code, textarea, script and style stay; any other text stays exactly when it is tidy |
| `HtmlPipeline.MediaOrderIrrelevant` | app/scraper/html_normalizer.py:247-250 | The unordered iteration over the media tags does not show in the result of the pipeline |
| `HtmlPipeline.NormalizeTwiceIff` | app/scraper/html_normalizer.py:140-183 | The whole pipeline run twice is the pipeline run once: always without `absolute_urls`, and with it exactly when each URL and `srcset` that the removals leave settles, for any `urljoin` |
| `HtmlPipeline.SrcsetSettlesIff` | app/scraper/html_normalizer.py:273-299 | A `srcset` settles exactly when each of its URLs resolves to one without a comma that resolves to itself, for resolved URLs that are words and in which what stands before the first comma resolves to itself, or the commas are single and inside |
| `Srcset.ResolveSrcset` | app/scraper/html_normalizer.py:280-299 | The loop over the pieces joins the resolved entries that are not blank, each with its descriptor |
| `Srcset.ResolveTwiceIff` | app/scraper/html_normalizer.py:280-299 | Resolving a resolved list again changes nothing exactly when every URL in it resolves to one that has no comma and resolves to itself |
| `Srcset.CommaInBase` | app/scraper/html_normalizer.py:280-299 | For every base that puts a single comma into a resolved name, such as `http://a/x,y/`, resolving twice is not resolving once, whatever the parts resolve to |
| `Srcset.CommasInBase` | app/scraper/html_normalizer.py:280-299 | The same for every base that puts any commas into a resolved name, adjacent ones as in `http://a/x,,y/` included, when what stands before the first resolves to itself |
| `HtmlWhitespace.WhitespaceTidy` | app/scraper/html_normalizer.py:302-357 | Outside the preserving tags no blank text is left and every text is collapsed and trimmed |
| `HtmlWhitespace.WhitespaceFixed` | app/scraper/html_normalizer.py:302-357 | The whitespace passes leave a document unchanged exactly when it is tidy already |
| `HtmlWhitespace.WhitespaceIdempotent` | app/scraper/html_normalizer.py:302-357 | Collapse then minify is idempotent on every tree |
| `HtmlWhitespace.WhitespacePreserves` | app/scraper/html_normalizer.py:302-357 | The visible characters stay the same in document order; elements, attributes, comments and direct text of pre/code/textarea/script/style stay untouched |
| `HtmlWhitespace.SpecialsThatSurvive` | app/scraper/html_normalizer.py:314-319 | A doctype, declaration or CDATA string stays one exactly when its text is tidy already |
| `HtmlWhitespace.SpecialBecomesText` | app/scraper/html_normalizer.py:314-357 | A special string that is not tidy is put back as ordinary text with the same visible characters, or dropped when it has none |
| `HtmlSoup.Soup.RemoveTags` | app/scraper/html_normalizer.py:204-207 | The in-place loop over the listed tags, descendants of removed tags included, is the tree filter by name |
| `HtmlSoup.Soup.RemoveHiddenTags` | app/scraper/html_normalizer.py:227-244 | The loop that skips detached tags and drops hidden ones is the template filter followed by the hidden filter |
| `HtmlSoup.Soup.RemoveCommentStrings` | app/scraper/html_normalizer.py:253-256 | Extracting the listed comments leaves the tree without comments |
| `HtmlSoup.Soup.RemoveMedia` | app/scraper/html_normalizer.py:247-250 | The loop over the media tags is the sequence of their removals |
| `HtmlSoup.Soup.EditTags` | app/scraper/html_normalizer.py:210-224 | Editing the attributes of every listed tag is the edit of every element of the tree |
| `HtmlSoup.Soup.CollapseChildren` | app/scraper/html_normalizer.py:311-325 | The recursive loop over children is the collapse pass |
| `HtmlSoup.Soup.MinifyChildren` | app/scraper/html_normalizer.py:339-357 | The recursive loop over children is the minify pass |
| `HtmlSoup.Soup.NormalizeHtml` | app/scraper/html_normalizer.py:81-186 | The in-place pipeline computes the normalised tree of the options joined with the preset and records exactly the features that were active; without both it changes nothing |
| `Text.SpacesAre` | app/scraper/html_normalizer.py:73-73 | The whitespace characters, which `\s` and `strip` share |
| `Text.CollapseFixed` | app/scraper/html_normalizer.py:317-319 | Whitespace collapsing leaves a text unchanged exactly when its whitespace is single spaces |
| `Text.StripTrims` | app/scraper/html_normalizer.py:347-352 | A stripped text has no outer whitespace, is empty exactly for blank texts, and is the text itself exactly when it was trimmed |
| `IsoTime.TextOrderIsTimeOrder` | app/cache/sqlite_cache.py:206-211 | For all valid UTC instants, with or without microseconds in the text, comparing the stored `isoformat()` strings is comparing the points in time |
| `IsoTime.IsoOrder` | app/cache/sqlite_cache.py:461-466 | Text order of the strings is field-by-field order of the instants, the form without a fraction included |
| `IsoTime.BeforeMicros` | app/cache/models.py:27-31 | Field-by-field order is order on the time line (proleptic Gregorian calendar, microseconds) |
| `IsoTime.Calendar` | app/cache/models.py:27-31 | The days that the time line counts: the Gregorian lengths of the months |
| `IsoTime.Layout` | app/cache/sqlite_cache.py:461-466 | The layout of the stored text, with a fraction of six digits exactly when there are microseconds |
| `CacheTable.ExpiryAgrees` | app/cache/models.py:27-31 | The text test of the SQL statements is `CacheEntry.is_expired` |
| `CacheTable.StatsAgree` | app/cache/sqlite_cache.py:206-211 | The expired rows that `stats` counts by text are the expired entries |
| `CacheTable.OldestIsChronological` | app/cache/sqlite_cache.py:482-483 | `ORDER BY fetched_at` on texts lists rows from the earliest fetch on |
| `SizeSweep.SweepBounds` | app/cache/sqlite_cache.py:491-522 | The batches reach the limit or the empty table and delete at most 99 rows more than the shortest oldest-first prefix that fits |
| `SizeSweep.ShortestIsShortest` | app/cache/sqlite_cache.py:491-522 | The reference prefix fits and no shorter one does |
| `SizeSweep.ExactSweepIff` | app/cache/sqlite_cache.py:500-521 | For any sizes: no row too many goes exactly when, in the state before the last batch, which is the sizes without an oldest-first prefix, the rest would not fit without deleting the last row of that batch |
| `SizeSweep.LastBatchDecides` | app/cache/sqlite_cache.py:500-521 | The rows deleted beyond the shortest prefix are those by which the last batch, capped by the rows left, exceeds the shortest prefix of the state before it |
| `SizeSweep.OvershootOccurs` | app/cache/sqlite_cache.py:508-512 | Every overshoot from 0 to 99 rows occurs: one row of 100 bytes and k empty ones, limit 0, all go although the first would have been enough |
| `SizeSweep.EqualSizesOvershoot` | app/cache/sqlite_cache.py:508-510 | Rows of one size: one row too many goes exactly when the excess is a whole number of rows, not a multiple of 100, and a row is left; otherwise none |
| `CacheTable.DeleteOldestIsPrefix` | app/cache/sqlite_cache.py:480-485 | Deleting the oldest n rows leaves exactly the age-ordered table without its first n rows |
| `CacheTable.CapSizeProperties` | app/cache/sqlite_cache.py:491-522 | The size phase leaves a newest suffix, within the limit or empty, at most 99 rows past the shortest prefix |
| `CacheTable.CleanupSurvivors` | app/cache/sqlite_cache.py:654-741 | Survivors of a cleanup are a newest suffix of the rows not past the cutoff |
| `CacheTable.CleanupLimits` | app/cache/sqlite_cache.py:654-741 | With non-negative limits no row past the cutoff, at most `max_entries` rows and at most `max_size_bytes` are left |
| `CacheTable.CleanupIdempotent` | app/cache/sqlite_cache.py:654-741 | A second cleanup with the same cutoff deletes nothing |
| `SqliteCache.Table.Put` | app/cache/sqlite_cache.py:246-271 | Insert or replace: the row is there, the others are untouched |
| `SqliteCache.Table.Stats` | app/cache/sqlite_cache.py:196-211 | Counts rows, bytes and rows expired by text |
| `SqliteCache.Table.CleanupExpired` | app/cache/sqlite_cache.py:455-470 | The rows left are exactly those not expired before the cutoff, in their order; reports how many went |
| `SqliteCache.Table.CleanupByMaxEntries` | app/cache/sqlite_cache.py:472-489 | The rows left are the newest, as many as the limit allows, in their order; reports how many went |
| `SqliteCache.Table.CleanupByMaxSize` | app/cache/sqlite_cache.py:491-522 | The batch loop ends and leaves what the sweep of the sizes gives; the reported number is the number of rows gone |
| `CacheTable.UnexpiredDetermined` | app/cache/sqlite_cache.py:455-470 | What the expiry phase promises leaves one table only |
| `CacheTable.CapEntriesDetermined` | app/cache/sqlite_cache.py:472-489 | What the entry cap promises leaves one table only |
| `SqliteCache.Cache.CleanTable` | app/cache/sqlite_cache.py:686-688 | The three phases on one table: reported deletions add up to rows before minus rows after |
| `SqliteCache.Cache.CleanupAll` | app/cache/sqlite_cache.py:654-741 | Each table ends as its own cleanup of its own rows: no table's phases touch another table |
| `SqliteCache.Cache.IsExpired` | app/cache/sqlite_cache.py:400-413 | A missing key counts as expired, a row by its text |
| `SearchModels.ListDegradations` | app/search/models.py:426-454 | The appended list is the list of tokens of the features not honoured, in order |
| `SearchModels.TokensAre` | app/search/models.py:426-454 | A token is listed exactly when its feature is asked for and not offered |
| `SearchModels.MergeDegradations` | app/search/router.py:517-530 | The loop over the negotiated tokens is the merge of which the next two rows speak |
| `SearchModels.StrictIsSatisfies` | app/search/router.py:504-514 | The strict tokens are empty exactly when the provider can honour every filter of the request; all it may then degrade is the limit |
| `SearchModels.MergeProperties` | app/search/router.py:517-530 | Merging keeps the provider's tokens in front, adds each negotiated one once and invents none |
| `SearchModels.MergeIdempotent` | app/search/router.py:517-530 | Merging the same tokens again changes nothing |
| `Routing.CandidateOrderRanks` | app/search/router.py:462-481 | The candidates are exactly the registered names, each once, ordered by first mention in the configured order followed by the registry |
| `Routing.VerdictIsCanServe` | app/search/router.py:376-393 | A candidate is not skipped exactly when its probe answers, says available and honours every filter |
| `Routing.EligibleServe` | app/search/router.py:374-394 | The eligible list is exactly the candidates that can serve the request |
| `Routing.DeciderDecides` | app/search/router.py:405-459 | The first candidate that can serve and does not fail transiently decides: its answer or terminal error is the outcome, `providers_attempted` is the eligible prefix up to it, those before it count as errors |
| `Routing.DeciderAnswers` | app/search/router.py:405-459 | Its answer is passed on with everything in it; the route adds a warning for each candidate skipped, with the reason, and for each that failed, with the next, and the token of an exceeded limit, and nothing else |
| `Routing.NamedProviderAlone` | app/search/router.py:308-363 | A request that names a provider, or follows a default that does, goes to that provider and no other: refused when it is unknown, unreachable or unable, each with its own error, and otherwise answered by it for better or worse |
| `Routing.AutoAmongAll` | app/search/router.py:308-315 | Only `auto` under the default `auto` is routed among all candidates |
| `Routing.NobodyDecides` | app/search/router.py:368-451 | Without such a candidate the outcome is NoProviderAvailable: empty registry, all skipped, each with the reason its probe gives, or all eligible tried and failed transiently, each with its failure |
| `Routing.RunBalanced` | app/search/router.py:349-441 | For every outcome attempts are successes plus errors, and fallbacks are attempts minus one |
| `SearchRouter.Registry.Register` | app/search/registry.py:29-40 | An empty or taken name is refused; otherwise the provider is appended; names stay distinct |
| `SearchRouter.Router.Make` | app/search/router.py:265-281 | Construction fails exactly when the default provider is neither `auto` nor registered |
| `SearchRouter.Router.OrderedCandidates` | app/search/router.py:462-481 | The two loops with the set of seen providers give the candidate order |
| `SearchRouter.Router.ProbeAll` | app/search/router.py:374-394 | The probe loop splits the candidates into offers and skips, in order |
| `SearchRouter.Router.TryEligible` | app/search/router.py:405-451 | The fallback loop ends with the outcome, attempts, warnings and counters of the specification |
| `SearchRouter.Router.RouteAuto` | app/search/router.py:366-459 | Outcome, metadata and counters of an auto route are those of the first-success specification |
| `SearchRouter.Router.RouteExplicit` | app/search/router.py:318-363 | Unknown, unreachable and unable providers are refused with their own errors; a transient failure is passed on, without fallback |
| `SearchRouter.Router.Route` | app/search/router.py:300-315 | The mode is chosen from the stripped provider; over any sequence of routes attempts stay successes plus errors per provider |
| `SearchKey.SameQuery` | app/search/cache.py:228-236 | Normalised queries are equal exactly when the words are equal up to case: spacing and case do not matter, nothing else is forgotten |
| `SearchKey.SameKey` | app/search/cache.py:239-252 | Key material is equal exactly when the words up to case, the verticals and lower-cased sources as multisets, and the other filters are |
| `SearchKey.SameEligible` | app/search/router.py:308-315 | Requests that mean the same search have one mode and, for the same probes, one eligible list |
| `SearchKey.SameRoute` | app/search/cache.py:312-343 | Providers may see the whole request: for equal keys, as far as the providers that the one route tries answer both requests alike, the other route tries the same ones and gives the same answer; a cached answer is then one it could have given |
| `SearchCacheModel.StepInv` | app/search/cache.py:297-360 | Every stretch of a search, cleanup or corruption keeps: rows, suspended searches and replies come from logged successful routes, and the counters add up |
| `SearchCacheModel.CachedAnswers` | app/search/cache.py:297-360 | Over any interleaving every answer from the cache is the whole answer of an earlier successful route for the same key, marked with when it was stored and its age, is fresh by the TTL it was stored with or marked stale with one warning more, and is never given to a forced refresh |
| `SearchCacheModel.LiveAnswers` | app/search/cache.py:327-360 | Over any such run every answer that is not from the cache is the whole answer of the route run for it just then, with the cache marks cleared |
| `SearchCacheModel.ServedUntilTouched` | app/search/cache.py:318-360 | From the end of a successful route on, over any run without a cleanup, corruption or another success for its key, every unforced request with that key is answered from its results, without the router, exactly until its time to live is over |
| `SearchCacheModel.RepliesCounted` | app/search/cache.py:318-357 | Hits, misses and stale hits are the numbers of fresh cached, live and stale replies, errors those of raised and covered ones, and misses the stored routes |
| `SearchCache.AutoMasked` | app/search/cache.py:382-424 | A failed auto run is stale-eligible exactly when some provider could serve and all such failed transiently, or the registry is not empty and every candidate is unreachable, or the deciding provider itself reports an outage |
| `SearchCache.ExplicitMasked` | app/search/cache.py:382-424 | The same for an explicit provider: registered and unreachable, or able and failing transiently or reporting an outage |
| `SearchCache.StaleAnswerIff` | app/search/cache.py:329-355 | A stale answer is given exactly when there is a cached entry, stale answers are on, no refresh is forced, and the providers are down in that sense |
| `SearchCache.SearchCache.Get` | app/search/cache.py:465-490 | A failed read or an undecodable row is a miss; the latter is discarded |
| `SearchCache.SearchCache.Put` | app/search/cache.py:492-513 | Stores with the request's or the default TTL, zero never expiring; a failed write changes nothing |
| `SearchCache.SearchCache.DeleteRows` | app/cache/sqlite_cache.py:654-741 | A cleanup that deletes rows under the object is the model's step, so what the object promises survives it |
| `SearchCache.SearchCache.Begin` | app/search/cache.py:297-325 | Up to the route: the step of the model over the mutable store and counters; an entry that is not expired is served and counted, and came from a logged successful route for the same key; disabled and forced searches do not look |
| `SearchCache.SearchCache.Finish` | app/search/cache.py:327-360 | From the outcome on: the step of the model; a live answer is the routed one with its marks cleared, a covered error gives the cached one with its age and one warning, any other error is raised as it is, and a disabled cache passes everything through |
| `SearchCache.SearchCache.Search` | app/search/cache.py:297-379 | An invalid request is refused before anything is touched; otherwise store, counters and reply are those of one step for a hit, of two steps around the routed outcome for the rest; an answer from the store has its logged route for the same key, is fresh or marked stale, and is never given to a forced refresh |
| `SearchCache.SearchCache.ServedFromRoute` | app/search/cache.py:297-360 | The same of every answer the object ever gave from its store, by the invariant that its methods keep |
| `FetcherModel.StepInv` | app/scraper/browser_fetcher.py:178-209 | Every fetch, close and timer callback, late ones included, keeps the invariants on drivers, timer and use count |
| `FetcherModel.DriverLifecycle` | app/scraper/browser_fetcher.py:82-104 | In every reachable state at most one driver is open, each is handed to close at most once, and one is held exactly while its timer runs, if the idle timeout is positive |
| `FetcherModel.UsesLimit` | app/scraper/browser_fetcher.py:203-209 | No driver serves more than max(1, `max_uses`) fetches |
| `FetcherModel.TimerSparesUsed` | app/scraper/browser_fetcher.py:351-356 | A late or cancelled timer never closes a driver used since it was started; the one that closes is the current one |
| `FetcherModel.CurrentTimerCloses` | app/scraper/browser_fetcher.py:327-376 | The callback of the current timer closes the held driver and any other changes nothing; an explicit close always lets go of it |
| `FetcherModel.FetchUsesOnce` | app/scraper/browser_fetcher.py:178-209 | A fetch uses the held driver, or a new one if it starts, once; it recycles it exactly when it has served as many fetches as allowed, and otherwise keeps it with a new timer |
| `BrowserFetcher.BrowserFetcher.Fetch` | app/scraper/browser_fetcher.py:178-209 | One locked fetch is the fetch step, whether or not a driver starts or the page can be read |
| `BrowserFetcher.BrowserFetcher.EnsureDriver` | app/scraper/browser_fetcher.py:82-104 | A driver is created only when none is held, and may fail |
| `BrowserFetcher.BrowserFetcher.RecordUse` | app/scraper/browser_fetcher.py:203-209 | The use is counted and the driver recycled or its timer restarted |
| `BrowserFetcher.BrowserFetcher.CloseIfIdle` | app/scraper/browser_fetcher.py:351-356 | The callback of the current timer leaves no driver and no timer; any other changes neither |
| `BrowserFetcher.BrowserFetcher.Close` | app/scraper/browser_fetcher.py:327-330 | An explicit close hands the held driver to close once |
| `FrozenConfig.FreezeIff` | app/scraper/browser_pool.py:20-28 | For all values without a repeated key: `_freeze` gives two one key exactly when they are alike, that is equal up to lists for tuples, the order of dictionaries, and key-sorted pairs for a dictionary, at every depth |
| `FrozenConfig.SameKeyIff` | app/scraper/browser_pool.py:20-28 | Configurations without nested dictionaries share a key exactly when they have equally many settings and agree on each up to lists for tuples, in any order |
| `FrozenConfig.SharedFetcherIff` | app/scraper/service.py:131-140 | The configurations that the scraper service passes share a key exactly when all their settings are equal |
| `FrozenConfig.FreezeCollision` | app/scraper/browser_pool.py:20-28 | An instance with a nested dictionary: it freezes as a list of pairs does |
| `FetcherPool.RecentOrder` | app/scraper/browser_pool.py:41-65 | The reference recency list is ordered by last request |
| `FetcherPool.PoolIsNewest` | app/scraper/browser_pool.py:41-65 | After any requests the pool's keys are exactly the `max_size` most recently requested distinct ones, in recency order |
| `FetcherPool.PooledOrRemoved` | app/scraper/browser_pool.py:41-77 | Every fetcher created is either pooled or was taken out for closing, exactly once |
| `FetcherPool.PoolKeys` | app/scraper/browser_pool.py:41-77 | The keys of the pool object are the newest of its request history since the last `close_all` |
| `FetcherPool.PooledAsConfigured` | app/scraper/browser_pool.py:41-65 | When what a configuration means depends on its key only, every pooled fetcher has the settings of every configuration it would be returned for |
| `FetcherPool.BrowserFetcherPool.Make` | app/scraper/browser_pool.py:34-37 | A capacity below one is refused |
| `FetcherPool.BrowserFetcherPool.Get` | app/scraper/browser_pool.py:41-65 | The known fetcher is moved to the end; a new one, made with the settings of its request, is appended and the least recent one leaves when there are too many; every pooled fetcher was made for a request with its key, with that request's settings |
| `FetcherPool.BrowserFetcherPool.TakeAll` | app/scraper/browser_pool.py:67-71 | All pooled fetchers are taken out and the pool starts anew |
| `SessionSafety.StepInv` | app/browser/service.py:244-578 | Every stretch of every operation, with any calls suspended, keeps lock exclusion, known references and the tab cap |
| `SessionSafety.TabCap` | app/browser/service.py:371-413 | In every reachable state no session has more tabs than `max_tabs_per_session` |
| `SessionRules.SessionNeeded` | app/browser/service.py:276-298 | A request for a session that is not the owner's is refused as unknown and one past its time as expired, and nothing changes |
| `SessionRules.SessionCreation` | app/browser/service.py:317-326 | Creating a session is refused when the interactive browser is off, and otherwise waits for the service lock |
| `SessionRules.SessionRead` | app/browser/service.py:358-365 | A session that is found is answered as it is, or begins to be released |
| `SessionRules.TabNeeded` | app/browser/service.py:415-420 | Closing a tab goes to the provider when the session has it, and is refused otherwise |
| `SessionRules.ActionAdmitted` | app/browser/service.py:434-579 | On a session and tab that are found an action goes to the provider exactly when it is permitted (a navigation by the URL rules, a click by its arguments, an evaluation by session and provider); each refusal has its own error and changes nothing |
| `SessionRules.TabAdmitted` | app/browser/service.py:371-386 | A tab with a rejected URL is never begun |
| `SessionRules.NeverEvaluates` | app/browser/service.py:555-579 | Over any run of a service whose policy forbids it, no evaluation is ever under way |
| `SessionRules.CreationGranted` | app/browser/service.py:326-336 | The cap is checked under the lock, on the sessions alive at the time of the request |
| `SessionRules.SessionMade` | app/browser/service.py:338-356 | A session is made with the provider's handle, the request's owner and time, the service's policy and no tabs; a refusal leaves nothing |
| `SessionRules.TabGranted` | app/browser/service.py:384-392 | Under the session's lock a tab is refused when the session is full, and otherwise goes to the provider with the lock held |
| `SessionRules.TabOpened` | app/browser/service.py:391-413 | A tab is opened with the provider's handle, its address or else the requested one, and the time of the request, which counts as activity; a refusal leaves the session as it was, unlocked |
| `SessionRules.TabClosed` | app/browser/service.py:415-428 | A tab goes when the provider closed it or no longer knows it; any other refusal leaves it |
| `SessionRules.ActionDone` | app/browser/service.py:434-579 | A page action updates its tab's record only, and counts as activity; a refused one changes nothing |
| `SessionRules.ReleaseStages` | app/browser/service.py:255-271 | A release locks the session, unlocks it whatever the provider answered, and then takes it out of the registry |
| `SessionRules.SweepScans` | app/browser/service.py:244-253 | A sweep goes on, under the service lock, to release exactly the sessions that are overdue as of its beginning |
| `SessionPrivacy.NonInterference` | app/browser/service.py:279-298 | A stretch of one profile's operation depends on and changes only that profile's sessions: states that agree on them give the same reply and agree afterwards, other profiles' sessions are as before, and a request for one of those gets the answer of an unknown session |
| `SessionPurge.OthersDoNotShow` | app/browser/service.py:244-578 | Over any run from the start, leaving out every operation of every other profile leaves a run that gives the profile the same replies in the same order and ends with the same sessions and operations of its own |
| `SessionPurge.ShowsStep` | app/browser/service.py:244-578 | An own stretch, or one of the sweeper, does to the profile's part of the state what it does to the whole, with the same reply |
| `SessionPurge.HiddenStep` | app/browser/service.py:244-578 | A stretch of another profile's operation does not change the profile's part of the state |
| `SessionCap.SessionCapIff` | app/browser/service.py:317-356 | Over any interleaving along a clock that does not go back, every profile stays within `max_sessions` unexpired sessions at all times, one being made included, exactly when no operation ends on an expired session of a full profile so as to revive it |
| `SessionCap.StepIff` | app/browser/service.py:386-406 | The same for one stretch: from a state within the caps it leaves them exactly when it is such a revival |
| `SessionCap.CapLasts` | app/browser/service.py:114-115 | Within the caps, time alone exceeds none: unexpired sessions only become fewer |
| `SessionCap.AtomicCap` | app/browser/service.py:317-356 | With operations taken as atomic, no profile ever has more than `max_sessions` unexpired sessions, at any event of a run from the start or later |
| `SessionCap.AtomicNeverWaits` | app/browser/service.py:244-406 | In such a run no operation ever finds a lock taken |
| `SessionCap.RevivalBreaksCap` | app/browser/service.py:386-406 | It does happen: a run from the initial state ends with two unexpired sessions under a cap of one |
| `SessionEffects.ScanFinds` | app/browser/service.py:244-248 | The sweep finds exactly the registered sessions that are expired |
| `SessionEffects.FoundUntilReleased` | app/browser/service.py:317-356 | From the stretch that makes a session on, over any run that does not release it, its owner finds it exactly until it expires after its last activity, and nobody else ever does |
| `SessionEffects.FoundUntilClosed` | app/browser/service.py:371-413 | From the stretch that opens a tab on, over any run that neither closes it nor releases its session, the owner finds it exactly until the session expires |
| `SessionEffects.LivesItsTime` | app/browser/service.py:117-118 | Along a clock that does not go back the last activity is never before the request that made the session, although an operation may set it back to the time of its own request |
| `SessionEffects.GoneForever` | app/browser/service.py:255-271 | From the last stretch of a release on, over any run, with any operations suspended on it, the session is unknown to every profile |
| `SessionEffects.ClosedForever` | app/browser/service.py:415-428 | From the last stretch that closes a tab on, over any run, the tab never comes back, also when page actions were suspended on it, unless its identifier is drawn again |
| `BrowserService.AgentBrowserService.Start` | app/browser/service.py:279-298 | First stretch over mutable records: lookup, checks and suspension of any request are the first step of the model |
| `BrowserService.AgentBrowserService.Resume` | app/browser/service.py:317-431 | Whichever stretch goes on, the service makes the model's step and keeps its invariant |
| `BrowserService.AgentBrowserService.GrantCreate` | app/browser/service.py:326-336 | The active sessions are counted under the lock, as of the time of the request |
| `BrowserService.AgentBrowserService.FinishTab` | app/browser/service.py:392-406 | A tab is added, and the session touched, only when the provider opened it |
| `BrowserService.AgentBrowserService.FinishAct` | app/browser/service.py:450-505 | The tab record takes over address and title, and the end of the action counts as activity |
| `BrowserService.AgentBrowserService.Release` | app/browser/service.py:255-271 | The session's lock is taken and given back, then the session leaves the registry |
| `BrowserService.AgentBrowserService.Scan` | app/browser/service.py:244-248 | The listed sessions are exactly the expired ones, in order |
| `UrlText.SameQueryIff` | app/scraper/normalizer.py:32-36 | Query strings are normalised alike exactly when they have the same parameters, each as often, in any order |
| `UrlText.NormalizedParts` | app/scraper/normalizer.py:18-46 | A normalised URL has scheme and host in lower case, no default port and every other, its path without trailing slashes, its parameters, and the sorted query with none lost |
| `UrlText.NormalizeTwiceIff` | app/scraper/normalizer.py:8-46 | Normalising the text of a normalised URL, parsed anew, gives that text exactly when host and path read back: no colon in the host beyond a valid port, no path of two or more slashes alone unless parameters follow it, and no semicolon in the segment that a stripped path ends in unless it starts parameters that stay in place |
| `UrlText.EmptyParameters` | app/scraper/normalizer.py:41-46 | With http and https, `http://h/a;/` becomes `http://h/a;` and then `http://h/a` |
| `UrlText.ParametersAfterSlash` | app/scraper/normalizer.py:41-46 | With http and https, `http://h/a/;b/` becomes `http://h/a/;b` and then `http://h/a;b` |
| `UrlText.SecondColonRefused` | app/scraper/normalizer.py:22-29 | An authority with a second colon is refused: reading its port raises |
| `UrlText.Ipv6Refused` | app/scraper/normalizer.py:22-29 | `http://[::1]/` loses its brackets, so the second run raises |
| `CacheKey.SameMaterialIff` | app/scraper/normalizer.py:49-76 | For one-line URLs the key material is equal exactly when the normalised URLs, the cookies as a multiset and the headers are |
| `CacheKey.PlainMaterial` | app/scraper/normalizer.py:49-76 | Without cookies and headers the material is the URL itself |
| `CacheKey.LineBreakCollides` | app/scraper/normalizer.py:65-75 | A line break in the URL would let a URL pass for a URL with cookies |
| `CacheKey.ReorderedParameters` | app/scraper/normalizer.py:32-36 | Reordering query parameters does not change the key |
| `JsonText.PairsInjective` | app/scraper/normalizer.py:69-73 | Different lists of pairs have different JSON texts, escapes and surrogate pairs included |
| `JsonText.PairsPrintable` | app/scraper/normalizer.py:69-73 | The JSON text is printable ASCII and has no line break |
| `JsonText.EscapesAre` | app/scraper/normalizer.py:69-73 | Printable ASCII but for quote and backslash is written as it is, and a character without a short escape by its UTF-16 units in hexadecimal |
| `JsonText.ShortEscapes` | app/scraper/normalizer.py:69-73 | The escapes of two characters |
| `JsonText.Layout` | app/scraper/normalizer.py:69-73 | Brackets, commas and quotes of a list of pairs |
| `ScrapeService.FetchAuto` | app/scraper/service.py:387-433 | Auto mode makes exactly one HTTP attempt and at most two browser attempts, two exactly when a blocked page's browser attempt fails within the service; page, mode and reported error are those of the promise |
| `ScrapeService.PromiseDetermines` | app/scraper/service.py:387-433 | The promise leaves no choice: the fetches determine outcome, mode and both numbers of attempts |
| `ScrapeService.AutoFailsIff` | app/scraper/service.py:387-433 | Auto mode fails exactly when HTTP gave nothing usable and every browser attempt it led to failed |
| `ScrapeService.ModeNamesSource` | app/scraper/service.py:357-413 | In every mode a fetched page comes from the backend its mode names, in auto mode from the last browser attempt or the HTTP fetch |
| `ScrapeService.ServedUntilTouched` | app/scraper/service.py:344-354 | From the scrape that stores a page on, whatever else is stored or dropped, every unforced request with its key is answered with that page, without a fetch, exactly until its lifetime is over: the request's, or else the domain's, or else the default, a zero counting as none, and for good if not positive |
| `ScrapeService.ScraperService.Begin` | app/scraper/service.py:340-354 | A hit exactly when no refresh is forced and the entry has no expiry or is not past it; otherwise the expired entry, if any, is kept for the stale answer |
| `ScrapeService.ScraperService.DropRows` | app/cache/sqlite_cache.py:654-741 | A cleanup or purge under the service is the drop step, which keeps what the other rows promise |
| `ScrapeService.ScraperService.Finish` | app/scraper/service.py:434-505 | On error the stale answer, or the error, which is wrapped when it is not the service's own; on success the page stored, cut to size, under its fetch's mode, and served; a served entry was stored for the same key |
| `ScrapeService.ScraperService.Scrape` | app/scraper/service.py:279-505 | The whole outcome: a refusal and a fresh entry take no fetch; a fetch error leaves the cache alone and is raised, unless stale answers are on and an expired entry was there and not bypassed, which is then the answer; a page is stored under the key with the mode of its fetch and is the one change of the cache |

## Left out

- FastAPI routes, schemas, the MCP adapter, the Camofox client, plugin loading, configuration parsing, logging and metrics rendering: plumbing around libraries.
- BeautifulSoup parsing and printing, `urljoin`, regex redaction and SQLite itself: the model starts from trees, a resolution function and tables.
- Srcset.ResolveTwiceIff: for an arbitrary resolving function it needs something of the resolved URLs: they have no whitespace, and either what stands before their first comma resolves to itself, as the front of an absolute URL does, or their commas stand single between other characters.
- HtmlPipeline.NormalizeTwiceIff: `urljoin` is any function, so when a resolved URL resolves to itself is a condition on it.
- HtmlSoup.Soup.CollapseChildren: builds the new list of children instead of replacing strings inside the parser's linked tree, so the identity of a replaced string is not followed; the same holds for HtmlSoup.Soup.MinifyChildren.
- Queue `task_done` accounting: a worker cancelled while it runs a job calls it twice (app/jobs/service.py:333 and app/jobs/service.py:353).
- Exceptions of `_build_scraper_for_job`, which sits outside the worker's `try`, and the gauges for queue size and running jobs.
- Collisions of random job, session and tab identifiers: they are taken to be new.
- `_maybe_evict` (app/cache/sqlite_cache.py:417-451): its row-count formula restores no limit in general.
- `VACUUM`, file sizes and the purge statements; the search and transcript cleanups are the same methods on the other tables.
- CacheTable.OldestIsChronological: rows fetched at the same instant are taken in scan order, which SQL leaves open.
- SearchModels.ValidQuery: does not check the pattern of the language tag.
- SearchRouter.Router.Route: elapsed times and failure messages are not modelled, warnings are kept as structured notes, and a cancelled provider call, which counts as an attempt only, does not occur.
- SearchKey.SameKey: case folding is any function that maps characters one by one, keeps whitespace and makes none; lower-casing of sources is any function.
- SearchCacheModel.CachedAnswers: the round trip of a response through its stored JSON is taken to be exact, and ages are not rounded.
- BrowserFetcher.BrowserFetcher.Fetch: the page interaction is one oracle; the lengths of waits and the failure of the close methods of a driver are not modelled, and a timer may fire at any time after it was started.
- FrozenConfig.FreezeIff: scalars are compared as Python compares them, and keys of dictionaries are texts that occur once.
- FetcherPool.BrowserFetcherPool.Get: returns the evicted fetcher, and the code's `close` of it outside the lock is `BrowserFetcher.Close`; a resident driver of a fetcher that a caller still holds is not bounded, and a configuration that the constructor refuses does not occur.
- SessionModel.Step: the provider calls of a release are one suspension, an empty address or title counts as missing, the shutdown that releases every session and the count a sweep returns are left out.
- BrowserService.AgentBrowserService.Scan: the suspension of the sweep between its releases is a step of `SessionModel` only.
- SessionCap.SessionCapIff: takes the clock not to go back.
- SessionPurge.OthersDoNotShow: the sweeper's stretches stay in the run, on the profile's own sessions only; the run that is left has the times of the full one.
- ScrapeService.ScraperService.Scrape: proxy, cookie, header and URL checks before the fetch are one refusal, storage is taken not to fail, debug output is left out.
- CacheKey.SameMaterialIff: requires one-line URLs, which `urlparse` gives by dropping line breaks; `CacheKey.LineBreakCollides` shows why. Lone surrogates do not occur, and a missing cookie value and the text None are one, as in the code.
- UrlText.NormalizeTwiceIff: a URL has a host, as `validate_url` demands; that `urlsplit` and `urlunsplit` cut and join scheme, authority, rest and query inversely, and the ports that the first run refuses, are not modelled. Lower-casing is any function that gives lower-case characters and leaves those alone.
- The domain rate limiter, auth merging, the cookie parser, transcript providers and the extractor registry: no concurrency cap holds for the first, and the others would add easy members only.
