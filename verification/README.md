# HR Signals content pipeline — a Dafny model

HR Signals collects HR and workforce articles and turns them into signals. It scrapes them, narrows the
batch, and has a language model annotate each article. It then stores the articles with their themes and
sectors, derives insights and trends, and writes a daily digest. This project models that pipeline as pure
functions over an immutable `Store` (articles, insights, trends, trend data points, digests), and proves
what each stage guarantees.

The language model is an `Oracle` passed in as a parameter. It is a record of total functions:
- `complete` answers a request with the response text or an exception message;
- one decoder per call stands for `json.loads` followed by the caller's `.get`s.

`Json<T>` separates an answer that is an object from valid JSON that is not one (a list, a number). Calling
`.get` on the latter raises.

Modules, in pipeline order:

| module | file | models |
|---|---|---|
| `Wrappers`, `Seqs`, `Text`, `Ranking` | wrappers.dfy, seqs.dfy, text.dfy, ranking.dfy | `Option`/`Result`; order-preserving filter; substring search and ASCII case; `ORDER BY … DESC [LIMIT k]` with NULLs last |
| `Records` | records.dfy | the tables, the seeded theme and sector vocabulary, day arithmetic |
| `Narrowing` | narrowing.dfy | `deduplicate_articles`, `filter_articles` |
| `Analysis` | analysis.dfy | `AIAnalysisService`: fenced-JSON extraction, fallbacks, truncation limits, `batch_analyze_articles` |
| `Enrich` | enrich.dfy | `_filter_new_articles`, `_analyze_articles` |
| `ArticleStore` | storage.dfy | `_store_articles` (featured flag, theme and sector resolution, flush failures) |
| `Insights` | insights.dfy | `_extract_and_store_insights` |
| `Trends` | trends.dfy | `_update_trends`, `_update_trend_data_points` |
| `DailyDigest` | digest.dfy | `generate_daily_digest` |
| `Pipeline` | pipeline.dfy | `scrape_and_process_all` |

Behaviour of the database session that the model depends on:
- **Autoflush is off** (backend/database/connection.py:28). Trends created during a run are still pending
  when the data-point update queries the trend table, so only trends that existed before the run get a
  point. A new trend gets its first point in the next run.
- **A failed flush poisons the session.** When a row misses a NOT NULL column, every later database call in
  the run raises. The insight step's query then fails outside any `try`, so the run reports an error and
  rolls back.
- **The final commit checks NOT NULL columns.** A new insight without a title or description, or a new
  trend without a name, makes the commit fail. The whole run is then rolled back.

Facts about the code that shape the model:
- The run returns counts or one error message. It keeps no list of per-item errors
  (backend/services/content_processor.py:75-85).
- A trend name the oracle proposes is stored as given. The existing names are only passed to the oracle;
  no code compares a new name with them (backend/services/content_processor.py:270-313).
- A trend's status is whatever the oracle gave, "emerging" by default. No code in the pipeline changes it later.
- Enrichment keeps the batch order (backend/services/content_processor.py:103-150).

The featured flag at backend/services/content_processor.py:176 raises for an annotation without a signal
strength (see "## Findings"). The storage loop, and everything built on it, uses the corrected flag
`ArticleStore.Featured`: the run, the pipeline lemmas and the stored rows. The loop as written is
`ArticleStore.StoreArticlesAsWritten`. It is proved equal to the corrected loop run on the batch without
the items whose comparison raises.

## Model

| member | source | states |
|---|---|---|
| Narrowing.Dedupe | backend/scrapers/news_scraper.py:251-264 | every kept item has a truthy url and the kept urls are pairwise distinct. Each kept item is the first in the input with its url. The set of kept urls is exactly the set of truthy urls in the input |
| Narrowing.DedupeIsSubseq | backend/scrapers/news_scraper.py:257-262 | deduplication keeps the input order |
| Narrowing.DedupeIdempotent | backend/scrapers/news_scraper.py:251-264 | deduplicating a deduplicated batch changes nothing |
| Narrowing.EffectiveMinLength | backend/scrapers/news_scraper.py:271 | no minimum and a minimum of 0 both fall back to the configured 100; any other value is used as given |
| Narrowing.FilterQuality | backend/scrapers/news_scraper.py:267-292 | an item is kept if and only if its content is at least the minimum length and its title and url are truthy |
| Narrowing.FilterQualityOrderAndIdempotence | backend/scrapers/news_scraper.py:274-290 | filtering keeps the order, and filtering twice equals filtering once |
| Narrowing.QualityBoundaryInclusive | backend/scrapers/news_scraper.py:276-278 | content of exactly the minimum length passes; one character less is dropped |
| Records.DayStart | backend/services/content_processor.py:333-343 | midnight of the current day: a multiple of a day, at most `now`, and less than a day before it |
| Ranking.SortDesc | backend/services/content_processor.py:214 | the result is a permutation of the input in descending key order, with a missing key ranking lowest |
| Ranking.TopKIsTop | backend/services/content_processor.py:213-215 | `LIMIT k` keeps min(k, n) rows of the input in descending order, and no row left out ranks above a kept one |
| Ranking.HeadIsMax | backend/services/content_processor.py:239 | the first row of a non-empty ranking has a key at least every input row's key |
| Analysis.NewService | backend/services/ai_service.py:20-25 | construction fails with the key-required error exactly when neither the explicit nor the configured key is truthy; otherwise the explicit key wins |
| Analysis.ExtractJsonBlock | backend/services/ai_service.py:95-97 | text without an opening fence is returned unchanged; with a closing fence, the body between the first opening fence and the next closing fence is returned |
| Analysis.ExtractJsonBlockRoundTrip | backend/services/ai_service.py:95-97 | wrapping a body that contains no closing fence in the json fences and extracting it gives the body back |
| Analysis.AnalyzeArticle | backend/services/ai_service.py:27-107 | a failed call or parse yields the default annotation; the prompt carries at most 5000 characters of content |
| Analysis.AnalyzeArticleReturnsAnswer | backend/services/ai_service.py:81-102 | when the call and the parse succeed, the parsed answer is returned as it is, object or not |
| Analysis.AnalyzeArticleSeesTruncatedContent | backend/services/ai_service.py:37 | contents that agree on their first 5000 characters get the same analysis |
| Analysis.ExtractInsights | backend/services/ai_service.py:109-171 | no articles, a failed call, a failed parse, an answer that is not an object, or one without an "insights" key all yield no insights; otherwise the answer's "insights" list is returned |
| Analysis.DetectEmergingTrends | backend/services/ai_service.py:173-238 | no articles, a failed call, a failed parse, an answer that is not an object, or one without a "trends" key all yield no trends; otherwise the answer's "trends" list is returned |
| Analysis.EmptyInputNeedsNoOracle | backend/services/ai_service.py:113-114 | with no articles the answer is empty whatever the oracle |
| Analysis.ExtractionSeesOnlyThePrefix | backend/services/ai_service.py:117-120 | only the first 10 articles (insights) or 20 (trends) influence the answer |
| Analysis.FallbackDigest | backend/services/ai_service.py:310-318 | the fallback digest has the capitalised period's title, the error summary and empty lists |
| Analysis.GenerateDigest | backend/services/ai_service.py:240-318 | a failed call or parse yields the fallback digest; otherwise the parsed answer is returned as it is, object or not |
| Analysis.DailyFallbackTitle | backend/services/ai_service.py:313-315 | the daily fallback title is "Daily HR Signals Digest" |
| Analysis.DigestSeesOnlyThePrefix | backend/services/ai_service.py:250-263 | only the first 15 articles, 5 insights and 5 trends influence the digest |
| Analysis.BatchAnalyze | backend/services/ai_service.py:341-370 | fails exactly when no key is available. Otherwise there is one analysis per article, in order, and a pause between consecutive slices of five |
| Analysis.Objects | backend/services/content_processor.py:236-255 | every entry kept comes from an object entry of the answer, and every object entry is kept; other entries are skipped |
| Analysis.ObjectsAppend | backend/services/content_processor.py:236-255 | the objects of a concatenation are those of each part in order, so each object entry yields exactly one row, repeats included, in answer order |
| Enrich.FilterNew | backend/services/content_processor.py:90-101 | an item is kept if and only if its url is not already stored |
| Enrich.FilterNewIsSubseq | backend/services/content_processor.py:96-99 | the novelty filter keeps the order |
| Enrich.Merge | backend/services/content_processor.py:130-143 | the scraped fields are unchanged. Each annotation value is copied as given, a missing signal strength included. Missing secondary themes and sectors become empty lists, and `is_emerging` is true only when the answer says true |
| Enrich.EnrichAllFailsOnNonObject | backend/services/content_processor.py:125-143 | enrichment fails exactly when some analysis returned a JSON value that is not an object |
| Enrich.EnrichAllKeepsSurvivors | backend/services/content_processor.py:125-145 | on success, the result is the survivors (analyses that did not raise), in order, each merged with its annotation |
| Enrich.AnalyzeArticlesIsPerItem | backend/services/content_processor.py:103-150 | processing in slices of five gives the same result as processing the items one by one |
| Enrich.WrappedAnalyzerKeepsEveryItem | backend/services/content_processor.py:112-145 | with the real analyser nothing is dropped. Each item keeps its url, title, source and date. The batch fails exactly when some answer is not an object |
| ArticleStore.FeaturedAsWritten | backend/services/content_processor.py:176 | the comparison as written: it raises when the annotation lacks a signal strength |
| ArticleStore.FeaturedAsWrittenRaisesWithoutSignal | backend/services/content_processor.py:176 | a concrete enriched item without a signal strength makes the as-written comparison raise |
| ArticleStore.Featured | backend/services/content_processor.py:176 | an article is featured exactly when its signal strength is present and above 0.8 |
| ArticleStore.FeaturedBoundary | backend/services/content_processor.py:176 | 0.81 is featured; 0.8 and a missing signal are not |
| ArticleStore.FeaturedAgreesWhereAsWrittenDefined | backend/services/content_processor.py:176 | wherever the as-written comparison does not raise, the two give the same flag |
| ArticleStore.ResolveThemes | backend/services/content_processor.py:183-192 | the attached themes are distinct. They are exactly the vocabulary themes named as truthy primary or as secondary. A resolving primary comes first |
| ArticleStore.ResolveSectors | backend/services/content_processor.py:195-198 | the attached sectors are the named sectors that exist, in order. Each occurs exactly as often as it is named (repeats kept); unknown names are dropped |
| ArticleStore.NewArticle | backend/services/content_processor.py:158-177 | the row has the item's url, title, source and dates. It is featured exactly when the signal is present and above 0.8, and it references only vocabulary themes and sectors |
| ArticleStore.NewArticleFromAnnotation | backend/services/content_processor.py:158-198 | the row copies every scraped and merged field unchanged. Its themes are exactly `ResolveThemes` of the annotation (distinct, primary first) and its sectors exactly `ResolveSectors` |
| ArticleStore.StoreArticles | backend/services/content_processor.py:152-206 | only the article table changes; existing rows are kept as a prefix; the count equals the rows added |
| ArticleStore.StoreArticlesAllOrPoisoned | backend/services/content_processor.py:155-206 | a batch with required fields and fresh, distinct urls is stored completely, as consecutive rows. Without a flush failure every item's url ends up stored |
| ArticleStore.StoreArticlesStoresLongestPrefix | backend/services/content_processor.py:155-206 | any batch: the rows added are those of its longest insertable prefix, with consecutive ids. A flush fails exactly when the batch is not insertable, and then at the item right after that prefix |
| ArticleStore.StoreArticlesAsWritten | backend/services/content_processor.py:155-206 | the loop with line 176 as written stores exactly what the corrected loop stores from the batch without the items whose comparison raises |
| ArticleStore.AsWrittenSkipsItemWithoutSignal | backend/services/content_processor.py:176-204 | an enriched, flushable item without a signal strength is skipped as written, uncounted and its url still unknown, while the corrected loop stores and counts it |
| ArticleStore.DefaultAnnotationUnderSeedVocabulary | backend/database/connection.py:58-141 | with the seeded vocabulary, the default annotation yields no theme ("General" is only a sector), the sector "General", and no featured flag |
| Insights.PublishedSince | backend/services/content_processor.py:211-213 | exactly the articles published at or after the cut-off, in order |
| Insights.ExtractAndStoreInsights | backend/services/content_processor.py:208-257 | only the insight table changes. Every new insight is anchored to the first window article and created now; the count equals the rows added |
| Insights.ExtractAndStoreInsightsRows | backend/services/content_processor.py:232-257 | with a recent article, the count is the number of objects the oracle returned, and new row k carries object k's title, description, impact, horizon and relevance, anchored to the strongest recent article |
| Insights.NoRecentArticleNoInsights | backend/services/content_processor.py:218-219 | the window is empty exactly when no article is from the last seven days, and then nothing changes |
| Insights.InsightsAnchorStrongestRecent | backend/services/content_processor.py:211-241 | every new insight is anchored to a recent article whose signal strength is at least every recent article's |
| Insights.InsightsIgnoreTail | backend/services/content_processor.py:222-232 | window articles beyond the first ten do not influence the insights |
| Trends.FirstThemeWith | backend/services/content_processor.py:297-299 | the first theme whose keyword list holds the keyword, or none exactly when no theme lists it |
| Trends.ThemeForKeywords | backend/services/content_processor.py:293-301 | a trend gets no theme exactly when no keyword is listed by any theme. Otherwise it gets the first theme listing the first of its keywords that any theme lists |
| Trends.NewTrend | backend/services/content_processor.py:303-313 | a new trend copies the oracle's fields, defaults its status to "emerging", and is in region "Global" with count 0. It references only vocabulary themes |
| Trends.KeywordMatches | backend/services/content_processor.py:341-349 | exactly the articles published today that mention the keyword in their title or summary |
| Trends.Tally | backend/services/content_processor.py:336-353 | the day's count is zero exactly when no keyword of the trend is mentioned by an article published today |
| Trends.SingleArticleCountedPerKeyword | backend/services/content_processor.py:340-353 | a single article is counted once per keyword it mentions (double counting across keywords) |
| Trends.TallyCountAppend | backend/services/content_processor.py:336-353 | the day's count over a set of articles is the sum of the counts over any split of it |
| Trends.FindTodayPoint | backend/services/content_processor.py:357-362 | the first point of the trend dated today or later, or none exactly when there is no such point |
| Trends.Upsert | backend/services/content_processor.py:364-376 | afterwards the day's first point of the trend records the tally. Points of other trends or days are unchanged, and at most one point is added |
| Trends.UpsertIdempotent | backend/services/content_processor.py:364-376 | recording the same tally twice equals recording it once |
| Trends.UpdateTrendPoint | backend/services/content_processor.py:330-380 | with no mention today nothing changes. Otherwise the trend's count and update time are set and a point for today records the count. Other trends are untouched; points that are not the trend's point for today are unchanged, and at most one point is added |
| Trends.UpdatePointsFrom | backend/services/content_processor.py:329-331 | the update changes only the trends it visits and no other table |
| Trends.UpdatePointsFromEffect | backend/services/content_processor.py:329-380 | every visited trend ends as its own step leaves it: unchanged when nothing mentions it today, otherwise with today's count and a point for today recording the tally |
| Trends.UpdatePointsFromInvariants | backend/services/content_processor.py:327-380 | the data-point update writes points only for the trends it visits and never gives a trend two points for one day |
| Trends.UpdateTrends | backend/services/content_processor.py:259-325 | nothing changes when no article is from the last 30 days. Otherwise the new trends are appended with the next ids, count 0 and start date now |
| Trends.UpdateTrendsAddsProposedTrends | backend/services/content_processor.py:283-316 | with an article from the last 30 days, the count is the number of objects the oracle returned, and the appended trends are exactly `NewTrend` of each object, in order, with consecutive ids |
| Trends.UpdateTrendsUpdatesExistingTrends | backend/services/content_processor.py:322-380 | with an article from the last 30 days, every trend that existed before the stage gets today's count and point when mentioned today, and is left unchanged otherwise |
| Trends.UpdateTrendsInvariants | backend/services/content_processor.py:259-325 | ids stay equal to positions; data points are written only for trends that existed before the stage; one point per trend per day is kept |
| DailyDigest.CreatedSince | backend/services/content_processor.py:397-398 | exactly the insights created at or after the cut-off |
| DailyDigest.EmergingTrends | backend/services/content_processor.py:403-404 | exactly the trends whose status is "emerging" |
| DailyDigest.Covered | backend/services/content_processor.py:457-458 | the set of truthy values of a nullable column |
| DailyDigest.DayArticles | backend/services/content_processor.py:388-391 | a permutation of the last day's articles, strongest signal first |
| DailyDigest.DayArticlesAre | backend/services/content_processor.py:388-391 | an article is among the day's articles exactly when it is stored and was published in the last day |
| DailyDigest.DigestArticlesAreTop | backend/services/content_processor.py:388-418 | the oracle sees at most fifteen of the day's articles, strongest signal first, and no article of the day left out has a stronger signal than one sent |
| DailyDigest.DayInsightsAreTop | backend/services/content_processor.py:397-401 | the oracle sees at most five insights created in the last day, most relevant first, and none left out is more relevant |
| DailyDigest.FailedCallGivesFallbackDigest | backend/services/content_processor.py:439-455 | when the oracle call fails, a day with articles still gets a digest titled "Daily HR Signals Digest" with the error summary and empty lists |
| DailyDigest.GenerateDailyDigest | backend/services/content_processor.py:382-464 | no digest exactly when no article is from the last day. The run fails exactly when the oracle's answer is not an object. Otherwise the appended digest is daily and spans the last day. It copies title, summary, top stories and implications from the answer, counts all of the day's articles and names the top emerging trends |
| DailyDigest.ThemesCoveredExactly | backend/services/content_processor.py:457 | a theme is covered exactly when some article of the last day has it as a non-empty primary theme |
| DailyDigest.RegionsCoveredExactly | backend/services/content_processor.py:458 | a region is covered exactly when some article of the last day has it as a non-empty region |
| DailyDigest.TopEmergingAreTop | backend/services/content_processor.py:403-408 | at most five trends are named, all stored and emerging, and no emerging trend left out has higher momentum than a named one |
| Pipeline.Candidates | backend/services/content_processor.py:39-46 | every candidate has a url, passes the quality filter, and is not yet stored |
| Pipeline.ScrapeAndProcessAll | backend/services/content_processor.py:26-88 | a failed run leaves the store unchanged. A run exits early exactly when there are no candidates. A successful run keeps every existing article as a prefix and writes no digest |
| Pipeline.CommittedRunStoresEveryCandidate | backend/services/content_processor.py:43-80 | a committed run stores every candidate and reports their number. The insight and trend counts equal the rows added, and every added row has its NOT NULL columns |
| Pipeline.RerunFindsNothingNew | backend/services/content_processor.py:43-51 | after a successful run, the same scraped batch finds nothing new and changes nothing, whatever the oracle and the clock |
| Pipeline.MissingSourceFailsRun | backend/services/content_processor.py:179-204 | example of the second clause of `Pipeline.RunCommitsIff`: when the first candidate has no source, its flush fails, the whole run fails, and the store is left unchanged |
| Pipeline.InsightRowsCommittable | backend/services/content_processor.py:236-251 | the new insight rows all have a title and a description exactly when every insight object of the oracle has both |
| Pipeline.TrendRowsCommittable | backend/services/content_processor.py:289-316 | the new trend rows all have a name exactly when every trend object of the oracle has one |
| Pipeline.StagesCommittable | backend/services/content_processor.py:63-73 | after the two stages the commit's NOT NULL check passes exactly when the oracle's insight and trend objects carry their required fields |
| Pipeline.CandidatesInsertable | backend/services/content_processor.py:156-204 | the candidates can all be flushed exactly when each has a source and a publication date; narrowing already gives each a title and a fresh url no other candidate shares |
| Pipeline.PersistCommitsIff | backend/services/content_processor.py:58-85 | a batch that is not insertable fails with the flush error. An insertable batch is stored whole and commits exactly when the oracle's objects carry their required fields, and otherwise fails on the NOT NULL column |
| Pipeline.RunCommitsIff | backend/services/content_processor.py:45-85 | with new candidates: a non-object analysis fails the run with the `.get` error; else a candidate without a source or date fails it with the flush error; else it commits, reporting every candidate, exactly when the oracle's insight and trend objects carry their required fields, and fails on the NOT NULL column otherwise |

## Left out

- Scraping (RSS feeds, web pages, Google Alerts) needs the network. The scraped batch is an input of the run.
- The language-model call (prompt text, model, temperature, token limit) is the oracle's `complete`.
- `json.loads` is the decoder functions. The model does not distinguish a JSON `null` from an absent key where the code gives `.get` a default (`secondary_themes`, `sectors`, `keywords`, `status`, `insights`, `trends`, `is_emerging`). A `null` there makes the code iterate or store `None`; for `is_emerging` it stores NULL where the model stores false.
- A value of the wrong JSON type is not modelled, under a list key or a scalar one.
  - Under a list key (`insights`, `trends`, `sectors`, `secondary_themes`, `keywords`) the decoder types admit only lists. Depending on the value, the code raises or iterates the characters of a string.
  - Under a scalar key the decoder types admit only the right type (for example a number for `signal_strength`, `relevance_score` or `momentum`). A string `signal_strength` would make the comparison at backend/services/content_processor.py:176 raise TypeError, and the item would be skipped, as in the finding below.
- A scraped dict holding an explicit `None` for `content` or `title` is not modelled (`len(None)` and `None[:5000]` raise). An item's absent field is `None` in the model and reads as the empty string.
- Concurrency (`asyncio.gather`) and the one-second sleeps are not modelled. Analyses are pure, so order is all that matters. The pause count is modelled only for `batch_analyze_articles`.
- SQLAlchemy details are not modelled: identity map, relationship loading, the SQL text of queries. `.first()` without `ORDER BY` is taken to return rows in storage order.
- `LIKE` is an ASCII case-insensitive substring test; `%` and `_` inside a keyword are not treated as wildcards.
- Trends.FirstThemeWith: `Theme.keywords.contains([kw])` is modelled as its intended meaning, "the theme's keyword list holds `kw`". The query the default SQLite backend actually runs is not modelled. For a JSON column it may render as a `LIKE` against the serialized list, and then it matches no seeded theme (each seeded theme lists four or five keywords). In that case every new trend gets no theme.
- Trends.ThemeForKeywords: inherits the intended containment from `Trends.FirstThemeWith`. On the default backend the theme it picks may differ from what the query returns, as the line above explains.
- The database is taken to be SQLite, the default `DATABASE_URL` (backend/config/settings.py:23). The code accepts any URL. On another backend such as PostgreSQL, `ORDER BY … DESC` puts NULLs first, so the insight anchor could be an article without a signal, and `LIKE` is case-sensitive. The model states the SQLite behaviour only.
- Floats are reals: no rounding, NaN or infinity.
- Times are integer seconds, and one clock reading `now` stands for every `utcnow()` call in a run.
- Exception messages are stand-in strings (`SessionRolledBack`, `NotNullViolation`, `NotADict`), not the driver's text.
- Logging (`print`), the weekly digest, the API layer, `init_db` and the seeding procedure are not modelled. Only the seeded vocabulary itself is modelled.
- Columns the pipeline never sets (`language`, `view_count`, `peak_date`, colours, descriptions) are not modelled.
- Prompt fields that no prompt reads are not modelled (`primary_theme` in the insight batch, `published_date` in the trend batch).
- Trends.UpdateTrendPoint: the averages stored in a point are stated through `Trends.PointFor` (totals divided by the count), not proved against an independent average.
- ArticleStore.StoreArticles: describes the corrected loop. As written, an enriched item without a signal strength is skipped before any database call: it is not stored, not counted, and the session stays usable. `ArticleStore.StoreArticlesAsWritten` states that behaviour.
- ArticleStore.StoreArticlesAllOrPoisoned: "stored completely" holds of the corrected loop. As written, the items without a signal strength are missing from the stored rows.
- ArticleStore.NewArticle: builds the row with the corrected flag. As written, no row is built for an enriched item without a signal strength.
- Pipeline.ScrapeAndProcessAll: runs the corrected loop. As written, the reported count leaves out candidates whose annotation lacks a signal strength.
- Pipeline.CommittedRunStoresEveryCandidate: holds of the corrected program. As written, a candidate whose annotation lacks a signal strength is not stored.
- Pipeline.RerunFindsNothingNew: holds of the corrected program. As written, candidates whose annotation lacks a signal strength stay new and are analysed again on every run; `ArticleStore.AsWrittenSkipsItemWithoutSignal` shows their url stays unknown.
- Pipeline.MissingSourceFailsRun: holds of the corrected program. As written, a candidate that also lacks a signal strength raises while its row is built, before the flush, and is skipped, so the run can still succeed.
- ArticleStore.StoreArticlesStoresLongestPrefix: describes the corrected loop. As written, an item without a signal strength is skipped rather than stored, so the rows added are not a prefix of the batch; `ArticleStore.StoreArticlesAsWritten` states that behaviour.
- Pipeline.PersistCommitsIff: holds of the corrected program. As written, an insertable item whose annotation lacks a signal strength is skipped, not stored.
- Pipeline.RunCommitsIff: holds of the corrected program. As written, the reported count leaves out candidates whose annotation lacks a signal strength, and such a candidate's missing source does not fail the run.

## Findings

| source | as written | input that shows it | evidently intended | confidence | as-written member | corrected member |
|---|---|---|---|---|---|---|
| backend/services/content_processor.py:176 | `is_featured=(art_data.get('signal_strength', 0) > 0.8)` | an annotation object without a "signal_strength" key (`ArticleStore.FeaturedAsWrittenRaisesWithoutSignal`; for the whole loop, `ArticleStore.AsWrittenSkipsItemWithoutSignal`). The merge at line 141 always stores the key, as `None` here, so the default 0 never applies. `None > 0.8` raises TypeError, and the article is skipped with only a log line. Because it is never stored, it is analysed again on every run | a missing signal strength counts as 0: the article is stored and not featured | not executed; follows from Python 3 comparison semantics | ArticleStore.FeaturedAsWritten | ArticleStore.Featured |
