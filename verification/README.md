# A verified model of a research-paper question-answering service

The system answers questions about uploaded research papers with
retrieval-augmented generation. A PDF is uploaded. The embedder service
reads its pages, finds a title, cuts each page into overlapping chunks,
and labels every chunk with the section it belongs to. The backend stores
the paper and its chunks and enqueues an ingestion job. The ingestion
worker embeds the chunks in batches and writes one vector point per
chunk. It then marks the paper indexed.

A question is first checked against a cache. On a miss, the vector index
is searched and the hits are re-ranked by a per-section weight. Hits are
joined with their chunk text and packed into a character budget; this
gives the context. An empty context yields a fixed uncertain answer.
Otherwise the context and question are serialised into an XML-style
prompt for the language model. The confidence is clamped, the answer is
cached, and the request is logged to the query history on a best-effort
basis. The history feeds the analytics: the most asked questions and a
"popular topic" the model summarises and then answers. Every route sits
behind a fixed-window rate limiter.

The system exists in two revisions, the newer `backend-service` and the
older `src/api`. Each revision's own components are modelled in their own
modules: `QueryRoute` and `LegacyQueryRoute`, `RateLimit` and
`LegacyRateLimit`. The embedder's chunker, `/extract` route and title
heuristic are modelled from its Python source.

All the code is modelled as pure functions over immutable values:
- scores, weights and font sizes are `real`;
- strings are `seq<char>`; a JavaScript `.length` counts UTF-16 code units
  (`Strings.Utf16Length`), a Python `len` counts characters;
- the document database, vector index and queue are a `Db` value that
  each route or worker attempt transforms, recording the store operations
  it makes in order;
- the rate limiter's buckets are a map threaded through requests;
- the cache, embedder, vector search, language model, SHA-256, clock and
  heading detector are parameters, in records of functions;
- the external calls a route makes are returned as a trace, so contracts
  can say what happens and in which order, and which calls are never made.

Files, one module each:

| file | module | models |
|---|---|---|
| wrappers.dfy | Wrappers | optional values and results of operations that can throw |
| seqs.dfy, sorting.dfy, strings.dfy | Seqs, Sorting, Strings | first-occurrence de-duplication, the stable sort, whitespace, case, trimming, decimal text, UTF-16 lengths and character order |
| json.dfy | Json | parsed request bodies and `Number()` / `String()` |
| records.dfy, responses.dfy | Records, Responses | hits, payloads, stored chunks, answers and the external-call trace |
| retrieval.dfy | Retrieval | the section weights, the re-ranker and the post-search step |
| groups.dfy, dedup.dfy, context.dfy | PaperGroups, KeyedDedup, Context | the context builder: grouping by paper, the chunk join, budget packing, citations and sources |
| prompt.dfy | Prompt | XML escaping and the prompt layout |
| analytics.dfy, analytics_routes.dfy, popular.dfy | Analytics, AnalyticsRoutes, PopularTopics | question normalisation, the popularity aggregation, the analytics routes and the popular-topic flow |
| query.dfy, legacy_query.dfy | QueryRoute, LegacyQueryRoute | the answering routes of both revisions |
| validation.dfy | Validation | the request schemas |
| ratelimit.dfy, legacy_ratelimit.dfy | RateLimit, LegacyRateLimit | the fixed-window limiters |
| store.dfy, papers.dfy, ingestion.dfy | DocStore, PaperRoutes, Ingestion | the document lifecycle: upload, details, statistics, delete, and one ingestion attempt |
| chunker.dfy, extract.dfy, title.dfy | TextChunker, Extractor, TitleHeuristic | the embedder's chunker, heading normalisation, `/extract` and the title heuristic |

Several files of the newer revision are not part of this model: its
context builder, prompt builder, analytics service and embedder client.
Its query route and popular-topic flow use the older revision's context
builder and prompt serialiser (`src/api/src/services/context.ts`,
`src/api/src/utils/prompt.ts`) in their place. The older revision's
retrieval service is not part of this model either, so its query route
takes retrieval and re-ranking as parameters.

Two behaviours of the code are modelled as written and shown by lemmas:
- The newer query route weights every score twice.
  `retrieveFromQdrant` weights and sorts the hits, and the route then
  re-ranks them again (`Retrieval.DoubleWeighting`).
- A hit whose `chunk_index` is 0 resolves to empty text, because of the
  `|| -1` in the lookup. Such empty entries still enter the context
  (`Context.ResolveZeroIsEmpty`, `Context.EmptyTextIncluded`).

Where the code and the documented design disagree, the model follows the
code:
- The newer query route answers 500 when the cache read or write fails;
  it does not swallow cache errors.
- The query schema checks the length of the question before trimming it.
  A question of spaces alone is therefore accepted and becomes empty
  (`Validation.BlankQuestionAccepted`).

## Model

| member | source | states |
|---|---|---|
| Retrieval.SectionWeight | backend-service/src/services/retrieval.ts:99-101 | every section weight is positive, so the `|| 1.0` fallback fires only when the lower-cased name is not in the table |
| Retrieval.SectionWeightTable | backend-service/src/services/retrieval.ts:24-33 | abstract 0.9, introduction 1.0, methods and methodology 1.2, results 1.1, discussion 1.05, conclusion 1.0, unknown 0.9, whatever the letter case of the name |
| Retrieval.SectionWeightFallback | backend-service/src/services/retrieval.ts:100-101 | a missing, empty or unlisted section name weighs 1.0 |
| Retrieval.SectionWeightCaseInsensitive | backend-service/src/services/retrieval.ts:100 | the weight depends only on the lower-cased name |
| Retrieval.Weighted | backend-service/src/services/retrieval.ts:103-106 | a weighted hit keeps the input's id and payload and its score is the input score times the section weight |
| Retrieval.WeightAll | backend-service/src/services/retrieval.ts:99-107 | one weighted hit per input hit, in input order |
| Retrieval.Rerank | backend-service/src/services/retrieval.ts:95-111 | the output has `min(len(items), max(topK, 1))` hits, so a `topK` of zero or less behaves as 1 |
| Retrieval.RerankSorted | backend-service/src/services/retrieval.ts:109 | output scores are non-increasing |
| Retrieval.RerankFromInputs | backend-service/src/services/retrieval.ts:99-110 | the output is a sub-multiset of the weighted inputs: each output hit is some input hit, weighted |
| Retrieval.RerankDroppedBelowKept | backend-service/src/services/retrieval.ts:109-110 | no dropped hit has a larger weighted score than any kept hit |
| Retrieval.RerankStable | backend-service/src/services/retrieval.ts:109 | the kept hits with one weighted score are a prefix of the input hits with that score, in input order (the sort is stable) |
| Retrieval.ExampleWeights | backend-service/tests/retrieval.test.ts:16 | abstract 0.8, methods 0.79 and results 0.78 weigh to 0.72, 0.948 and 0.858 |
| Retrieval.ExampleSorted | backend-service/tests/retrieval.test.ts:16-17 | those weighted hits sort as methods, results, abstract |
| Retrieval.RerankExample | backend-service/tests/retrieval.test.ts:9-18 | re-ranking the test's three hits with topK 3 gives ids 2, 3, 1 |
| Retrieval.SearchRequestFor | backend-service/src/services/retrieval.ts:50-70 | the search limit is at least 1 and at least topK; a paper filter is sent exactly when the id list is present and non-empty, and it is that list |
| Retrieval.RetrieveFromIndex | backend-service/src/services/retrieval.ts:39-89 | retrieval succeeds exactly when the embedder and the search succeed; it searches `papers_chunks` at threshold 0.5 with limit `max(topK, 1)` and returns the search hits re-ranked as `rerankBySectionWeight` does |
| Retrieval.DoubleWeighting | backend-service/src/services/retrieval.ts:75-88 | re-ranking retrieval's output again yields hits each of which is a search hit weighted twice |
| Retrieval.DoubleWeightingReorders | backend-service/src/routes/query.ts:62-63 | weighting twice reorders hits that one weighting keeps in order: an abstract hit at 1.0 beats an unlabelled hit at 0.85 after one pass and loses after two |
| Context.Fetched | src/api/src/services/context.ts:48-51 | the fetched chunks are exactly the stored chunks of the paper whose order is among the requested orders |
| Context.LastText | src/api/src/services/context.ts:52-53 | the order-to-text map holds a text for a key exactly when some fetched chunk has that order, and the text is that of such a chunk (the last one set wins) |
| Context.ResolveFromStore | src/api/src/services/context.ts:55-57 | a non-empty entry text is the text of a stored chunk of the hit's paper whose order is the hit's lookup key |
| Context.ResolveFindsChunk | src/api/src/services/context.ts:44-57 | a hit with a non-zero chunk index finds its text whenever the store holds a chunk of its paper with that order |
| Context.ResolveZeroIsEmpty | src/api/src/services/context.ts:57 | chunk index 0 is looked up as -1 just like a missing index, so with non-negative orders both give the empty text |
| Context.Pack | src/api/src/services/context.ts:68-71 | entries that are packed form a subsequence of the visited ones and their total length in UTF-16 code units stays within the budget; a negative starting budget packs nothing |
| Context.PackMaximal | src/api/src/services/context.ts:69 | an entry is skipped only when it would not fit even on top of everything that was packed |
| Context.PackEmptyIff | src/api/src/services/context.ts:68-71 | nothing is packed exactly when every entry alone is longer than the budget in UTF-16 code units |
| Context.CitationOf | src/api/src/services/context.ts:72-77 | a citation carries the hit's paper title, section, page and score |
| Context.FinalCitations | src/api/src/services/context.ts:100-101 | at most five citations are kept |
| Context.FinalCitationsSortedUnique | src/api/src/services/context.ts:87-101 | the final citations are sorted by descending relevance and no two share a title-section-page key |
| Context.FinalCitationsBest | src/api/src/services/context.ts:88-99 | each final citation is an input citation that is the best of its key (the earliest on a tie, since only a strictly higher score replaces), and every input key keeps a citation at least as good |
| Context.FinalCitationsDropped | src/api/src/services/context.ts:100-101 | the cap at five drops no de-duplicated citation that scores above a kept one |
| Context.TitlesOf | src/api/src/services/context.ts:78-83 | the candidate source titles are exactly the non-empty paper titles of the entries packed |
| Context.ResolveWith | src/api/src/services/context.ts:44-57 | the entries are visited in grouped order, each hit paired with the text it resolves to |
| Context.CitationsOf | src/api/src/services/context.ts:72-77 | one citation is pushed per packed entry, in order |
| Context.EntriesOf | src/api/src/services/context.ts:58-67 | one context item is pushed per packed entry, in order, with the hit's source fields |
| Context.ResolveWithHasEveryHit | src/api/src/services/context.ts:37-55 | every retrieved hit is visited |
| Context.ResolveWithOnlyHits | src/api/src/services/context.ts:37-55 | only retrieved hits are visited |
| Context.AssembleBudget | src/api/src/services/context.ts:68-71 | the included text never exceeds the budget in UTF-16 code units, the included entries keep their visiting order, and an entry is left out only if it does not fit on top of everything included |
| Context.EmptyTextIncluded | src/api/src/services/context.ts:57-71 | an entry whose text resolved to the empty string is always included when the budget is not negative |
| Context.AssembleEmptyIff | src/api/src/services/context.ts:68-71 | the context item list is empty exactly when every hit's text alone is longer than the budget in UTF-16 code units, including when there are no hits |
| Context.AssembleItems | src/api/src/services/context.ts:58-71 | every context item is an input hit with its full resolved text |
| Context.AssembleCitations | src/api/src/services/context.ts:72-101 | at most five citations, unique by key, sorted by relevance, each the citation of an included entry |
| Context.CitationsFrom | src/api/src/services/context.ts:87-101 | the final citations of the included entries come from those entries and are unique by key and sorted |
| Context.AssembleSources | src/api/src/services/context.ts:78-83 | the sources are the distinct non-empty titles of included entries, each included titled entry contributes its title, in order of first appearance |
| Context.ContextBudget | src/api/src/services/context.ts:24-27 | with the chunk store as text source the budget bound still holds (the default budget is 8000 UTF-16 code units) |
| Context.ContextEmptyIff | src/api/src/services/context.ts:24-71 | the context builder yields no items exactly when every hit's resolved text is longer than the budget in UTF-16 code units |
| PaperGroups.PaperIds | src/api/src/services/context.ts:38 | one paper id per hit, position by position |
| PaperGroups.Indexed | src/api/src/services/context.ts:37 | each hit is paired with its position in the retrieved list |
| PaperGroups.OfPaper | src/api/src/services/context.ts:39-40 | a paper's group is no longer than the input |
| PaperGroups.OfPaperMember | src/api/src/services/context.ts:39-40 | a paper's group holds exactly the hits of that paper |
| PaperGroups.FlatOfPaper | src/api/src/services/context.ts:44 | visiting the groups of a list of papers yields, for each listed paper, exactly its group, and nothing of unlisted papers |
| PaperGroups.FlatPapers | src/api/src/services/context.ts:44 | only hits of the listed papers are visited |
| PaperGroups.FlatOrder | src/api/src/services/context.ts:44 | visiting groups in first-appearance order visits papers in that order |
| PaperGroups.PaperOfHit | src/api/src/services/context.ts:38-39 | every paper with a hit gets a group |
| PaperGroups.GroupedPerPaper | src/api/src/services/context.ts:36-41 | within each paper the hits keep their input order and none is lost or repeated |
| PaperGroups.GroupedOrder | src/api/src/services/context.ts:44 | papers are visited in the order of their first hit |
| PaperGroups.GroupedMembers | src/api/src/services/context.ts:36-44 | the grouped visit holds exactly the input hits |
| KeyedDedup.KeyIndex | src/api/src/services/context.ts:92 | the index found for a key holds an element of that key, and no index is found only when no element has it |
| KeyedDedup.Step | src/api/src/services/context.ts:92-98 | a step never shortens the de-duplicated list |
| KeyedDedup.StepNew | src/api/src/services/context.ts:93-95 | appending an element of a new key keeps keys unique, every seen key dominated and every kept element first-best |
| KeyedDedup.StepReplace | src/api/src/services/context.ts:96-97 | replacing by a strictly better element of a known key keeps the de-duplication invariant |
| KeyedDedup.StepKeep | src/api/src/services/context.ts:96 | keeping the old element when the new one is not strictly better keeps the invariant |
| KeyedDedup.DedupBySpec | src/api/src/services/context.ts:87-99 | the result has unique keys, every input key has a kept element scoring at least as high, and each kept element is the earliest input element of its key with its score |
| KeyedDedup.PermutationKeepsUniqueKeys | src/api/src/services/context.ts:100 | sorting the de-duplicated list keeps the keys unique |
| KeyedDedup.KeptAreFirstBest | src/api/src/services/context.ts:100-101 | whatever is taken from the de-duplicated list is an input element that is first-best for its key |
| KeyedDedup.DominatesMembers | src/api/src/services/context.ts:88-99 | every input element's key has a de-duplicated element at least as good |
| Prompt.ReplaceAll | src/api/src/utils/prompt.ts:43 | a global replacement removes every occurrence of the target when the replacement does not contain it, and leaves text without the target unchanged |
| Prompt.ReplaceChainUntouched | src/api/src/utils/prompt.ts:42-47 | text that none of the replacements targets passes through the chain unchanged |
| Prompt.ReplaceChainSingle | src/api/src/utils/prompt.ts:42-47 | when no replacement introduces a character a later rule targets, a single character is replaced by the first rule that targets it |
| Prompt.EscapeRulesNoLaterTarget | src/api/src/utils/prompt.ts:43-47 | escaping `&` first makes the chain safe: no entity contains a character a later rule targets |
| Prompt.EscapeRulesFirst | src/api/src/utils/prompt.ts:43-47 | the chain maps `&`, `<`, `>`, `"` and `'` to `&amp;`, `&lt;`, `&gt;`, `&quot;` and `&apos;` and keeps every other character |
| Prompt.EscapeXmlIsPerChar | src/api/src/utils/prompt.ts:41-48 | the chain of five global replacements equals escaping each character on its own, so no entity is escaped twice |
| Prompt.EntityOfEscape | src/api/src/utils/prompt.ts:43-47 | an escaped special character is recognised back as its entity, and an ordinary character never starts one |
| Prompt.UnescapeStep | src/api/src/utils/prompt.ts:43-47 | decoding undoes the escape of the first character, whatever follows |
| Prompt.EscapeEachRoundTrip | src/api/src/utils/prompt.ts:41-48 | decoding the entities of per-character escaped text gives the input back |
| Prompt.EscapeXmlRoundTrip | src/api/src/utils/prompt.ts:41-48 | escaping loses nothing: decoding the five entities of the escaped text gives the input back |
| Prompt.EscapeEachShape | src/api/src/utils/prompt.ts:41-48 | per-character escaped text holds no `<`, `>`, `"` or `'`, and each `&` in it starts one of the five entities |
| Prompt.EscapeXmlShape | src/api/src/utils/prompt.ts:41-48 | escaped text holds no `<`, `>`, `"` or `'`, and each `&` in it starts one of the five entities |
| Prompt.EscapeXmlIdentity | src/api/src/utils/prompt.ts:41-48 | text without any of the five special characters is left as is |
| Prompt.FramedJoin | src/api/src/utils/prompt.ts:16-37 | lines joined with newlines start with the first line, end with the last one and contain every line between |
| Prompt.PromptShape | src/api/src/utils/prompt.ts:16-38 | the prompt opens with `<context>`, holds one chunk block per context item in input order, and ends with the escaped question wrapped in question tags |
| Prompt.MetaHasTitle | src/api/src/utils/prompt.ts:21-25 | the meta line of a chunk carries the escaped paper title |
| Prompt.PromptHasTitle | src/api/src/utils/prompt.ts:18-29 | the escaped title of every titled context item occurs in the prompt |
| Prompt.PromptHasTags | src/api/src/utils/prompt.ts:17-36 | the prompt contains the context tag and the question line |
| Prompt.CleanQuestionLine | src/api/src/utils/prompt.ts:36 | a question without special characters appears verbatim between the question tags |
| Prompt.ExampleHasQuestion | backend-service/tests/retrieval.test.ts:37 | the prompt for the question "What is used?" contains `<question>What is used?</question>` |
| Prompt.ExampleHasTitle | backend-service/tests/retrieval.test.ts:36 | the prompt for an item titled "Attention is All You Need" contains that title |
| Prompt.PromptExample | backend-service/tests/retrieval.test.ts:21-38 | the unit-test prompt contains the context tag, the paper title and the question line |
| Analytics.NormalizeShape | src/api/src/services/analytics.ts:25-30 | a normalised question has no whitespace at either end, no upper-case letter and only single plain spaces between words; a missing question normalises to the empty string |
| Analytics.NormalFixed | src/api/src/services/analytics.ts:25-30 | a string already in normal form is its own normalisation |
| Analytics.NormalizeIdempotent | src/api/src/services/analytics.ts:25-30 | normalising twice is normalising once, so stored normalised questions group stably |
| Analytics.Counted | src/api/src/services/analytics.ts:55-57 | grouping yields one row per distinct key, carrying exactly how often that key occurs |
| Analytics.TopCounts | src/api/src/services/analytics.ts:61-62 | the limit keeps as many rows as there are distinct keys, up to the limit |
| Analytics.TopCountsSorted | src/api/src/services/analytics.ts:61 | the rows come most frequent first |
| Analytics.TopCountsExact | src/api/src/services/analytics.ts:55-62 | every row is a key of the input with its exact number of occurrences, and no key has two rows |
| Analytics.TopCountsDropped | src/api/src/services/analytics.ts:61-62 | a key without a row occurs no more often than any key with one |
| Analytics.NormalizedKeys | src/api/src/services/analytics.ts:56 | the grouping key of each stored query is its normalised question |
| Analytics.TopQuestions | src/api/src/services/analytics.ts:51-65 | one question row per kept group |
| Analytics.TopQuestionsSpec | src/api/src/services/analytics.ts:51-65 | as many rows as distinct normalised questions up to the limit, counts non-increasing, and each row shows the question of its group's first record with the group's size |
| Analytics.TopPapers | src/api/src/services/analytics.ts:67-92 | a successful paper ranking has one row per kept paper id |
| Analytics.TopPapersSpec | src/api/src/services/analytics.ts:67-92 | the ranking fails exactly when a kept paper id is not a valid ObjectId; otherwise each row is a top-source paper id with the exact number of references, its looked-up title, and counts are non-increasing |
| Analytics.TopPapersDropped | src/api/src/services/analytics.ts:72-73 | a paper without a row was a top source no more often than any paper with one |
| AnalyticsRoutes.LimitOf | backend-service/src/routes/analytics.ts:11 | the limit always lies between 1 and 100; a missing or non-numeric or zero value gives 20, otherwise the numeric value clamped |
| AnalyticsRoutes.TopQuestionsRoute | backend-service/src/routes/analytics.ts:9-20 | the ranking is requested once with the clamped limit; its data is sent as is, and a failure becomes a 500 INTERNAL carrying its message or "ranking failed" |
| AnalyticsRoutes.Failed | backend-service/src/routes/analytics.ts:41-60 | the no-questions error becomes a 404 NO_DATA with the fixed message and every other error a 500 INTERNAL |
| AnalyticsRoutes.PopularCacheHit | backend-service/src/routes/analytics.ts:28-32 | a cached topic is sent as parsed and nothing but the cache read happens |
| AnalyticsRoutes.PopularMissCaches | backend-service/src/routes/analytics.ts:35-40 | on a miss the computed topic is sent, and the last call caches it under `popular:topic:latest` for 300 seconds |
| AnalyticsRoutes.PopularNoData | backend-service/src/routes/analytics.ts:35-50 | with no questions in the history the reply is a 404 NO_DATA after the cache read and the ranking lookup, with nothing generated and nothing written |
| AnalyticsRoutes.PopularErrors | backend-service/src/routes/analytics.ts:41-60 | every failure is a 404 NO_DATA or a 500 INTERNAL |
| QueryRoute.CacheKey | backend-service/src/routes/query.ts:22-43 | the key is `query:ret:` followed by at most the first 16 characters of the digest of `normalised question|topK|ids` |
| QueryRoute.CacheKeyNormalized | backend-service/src/routes/query.ts:27-28 | questions that differ only in letter case, surrounding whitespace or whitespace runs share their cache key |
| QueryRoute.CacheKeyPermutation | backend-service/src/routes/query.ts:30-31 | reordering the paper ids does not change the cache key |
| QueryRoute.CacheInputAbsentVsEmpty | backend-service/src/routes/query.ts:31-34 | an absent id list (`*`) and an empty one (the empty string) hash different texts |
| QueryRoute.TopSources | backend-service/src/routes/query.ts:110-115 | the history keeps the first five re-ranked hits, in order, with paper id, section, page and score |
| QueryRoute.HistoryRecordShape | backend-service/src/routes/query.ts:116-129 | the history record's total time is retrieval plus generation time, it keeps at most five sources, the normalised question and the confidence sent |
| QueryRoute.GroundedSpec | backend-service/src/routes/query.ts:82-145 | after generation a failure is a 500 INTERNAL; a success is a fresh answer with confidence in [0.2, 0.99], cached for 60 seconds and then written to the history as the last call |
| QueryRoute.GroundedIgnoresHistory | backend-service/src/routes/query.ts:108-132 | after generation the reply does not depend on how the history write turns out |
| QueryRoute.AnsweringFails | backend-service/src/routes/query.ts:62-145 | a failing retrieval or chunk store after a miss is a 500 INTERNAL with its message or "query failed" |
| QueryRoute.AnsweringUncertain | backend-service/src/routes/query.ts:71-80 | an empty context after a miss gives the fixed uncertain answer after exactly the cache read, the retrieval and the chunk lookup |
| QueryRoute.AnsweringGrounded | backend-service/src/routes/query.ts:82 | a non-empty context goes on to prompt assembly and generation with the re-ranked hits |
| QueryRoute.AnsweringIgnoresHistory | backend-service/src/routes/query.ts:108-132 | whatever the history store does, the reply after a miss is the same |
| QueryRoute.HandleMiss | backend-service/src/routes/query.ts:47-58 | a valid body whose key misses the cache is answered by retrieval and generation |
| QueryRoute.InvalidBodyRejected | backend-service/src/routes/query.ts:136-141 | a body the schema refuses is a 400 VALIDATION_ERROR whose message is the schema's first issue in field order, as `Validation.QueryFirstIssue` gives it, and nothing else is called |
| QueryRoute.CacheHitShortCircuits | backend-service/src/routes/query.ts:54-58 | on a cache hit only the cache read happens and the stored payload is returned as parsed |
| QueryRoute.MissLookups | backend-service/src/routes/query.ts:54-69 | the cache read, the retrieval and the chunk lookup neither generate nor write |
| QueryRoute.EmptyContextGuardrail | backend-service/src/routes/query.ts:71-80 | with an empty context nothing is generated and nothing is written to the cache or the history |
| QueryRoute.EmptyContextOutcome | backend-service/src/routes/query.ts:71-80 | with an empty context the reply is the fixed uncertain answer with confidence 0.2, no citations and no sources |
| QueryRoute.GroundedAnswer | backend-service/src/routes/query.ts:82-134 | a grounded answer has confidence in [0.2, 0.99], is cached for 60 seconds under the request's key, and is then recorded in the history |
| QueryRoute.HistoryIsBestEffort | backend-service/src/routes/query.ts:108-132 | two environments that differ only in how the history write turns out give the same reply |
| QueryRoute.ErrorStatuses | backend-service/src/routes/query.ts:135-146 | a failure is a 400 VALIDATION_ERROR exactly for a refused body and a 500 INTERNAL otherwise |
| LegacyQueryRoute.QuestionOf | src/api/src/routes/query.ts:15-21 | a question is taken exactly when the body's `question` is a non-empty string, and it is that string |
| LegacyQueryRoute.TopKOf | src/api/src/routes/query.ts:15-23 | topK always lies between 1 and 10; an absent, non-numeric or zero `top_k` gives 5, otherwise the numeric value clamped |
| LegacyQueryRoute.PaperIdsOf | src/api/src/routes/query.ts:24 | paper ids are taken exactly when `paper_ids` is an array, each element converted to its string form, in the order given |
| LegacyQueryRoute.CacheKey | src/api/src/routes/query.ts:28-31 | the key starts with `query:ret:` and ends with the ids joined by commas, or `*` without a list |
| LegacyQueryRoute.CacheKeyCaseInsensitive | src/api/src/routes/query.ts:29 | questions equal after trimming and lower-casing share their key |
| LegacyQueryRoute.CacheKeyOrderSensitive | src/api/src/routes/query.ts:31 | the ids are not sorted: the same two distinct ids in the other order give a different key |
| LegacyQueryRoute.CacheKeyAbsentVsEmpty | src/api/src/routes/query.ts:31 | an absent id list and an empty one give different keys |
| LegacyQueryRoute.GroundedSpec | src/api/src/routes/query.ts:59-83 | after generation a failure is a 500 INTERNAL; a success is a fresh answer with confidence in [0.2, 0.99] whose last call caches it for 60 seconds |
| LegacyQueryRoute.GeneratingSpec | src/api/src/routes/query.ts:61-83 | generation from a prompt either fails with a 500 or caches the answer as its last call |
| LegacyQueryRoute.GroundedNoHistory | src/api/src/routes/query.ts:59-83 | generation writes the cache and never a history record |
| LegacyQueryRoute.GeneratingNoHistory | src/api/src/routes/query.ts:61-81 | generating from a prompt writes no history record |
| LegacyQueryRoute.ServeMiss | src/api/src/routes/query.ts:33-40 | a cache miss goes on to retrieval and answering |
| LegacyQueryRoute.AnsweringFails | src/api/src/routes/query.ts:40-88 | a failing retrieval or chunk store after a miss is a 500 INTERNAL with its message or "query failed", with no history record |
| LegacyQueryRoute.AnsweringUncertain | src/api/src/routes/query.ts:48-57 | an empty context gives the fixed uncertain answer after the lookups only |
| LegacyQueryRoute.AnsweringGrounded | src/api/src/routes/query.ts:59 | a non-empty context goes on to generation with the re-ranked hits |
| LegacyQueryRoute.MissingQuestionRejected | src/api/src/routes/query.ts:16-21 | a body without a usable question is a 400 BAD_REQUEST with no call made, and every other failure is a 500 INTERNAL |
| LegacyQueryRoute.CacheHitShortCircuits | src/api/src/routes/query.ts:33-37 | on a cache hit only the cache read happens and the stored payload is returned as parsed |
| LegacyQueryRoute.EmptyContextGuardrail | src/api/src/routes/query.ts:48-57 | with an empty context the fixed uncertain answer is returned and nothing is generated or written |
| LegacyQueryRoute.MissCallsQuiet | src/api/src/routes/query.ts:33-46 | up to the context, nothing is generated, written or recorded |
| LegacyQueryRoute.GroundedAnswer | src/api/src/routes/query.ts:59-83 | a grounded answer has confidence in [0.2, 0.99] and is cached for 60 seconds under the request's key as the last call |
| LegacyQueryRoute.NeverRecordsHistory | src/api/src/routes/query.ts:14-90 | the older route never writes a history record |
| LegacyQueryRoute.ServeNoHistory | src/api/src/routes/query.ts:33-83 | serving a request with a question writes no history record |
| LegacyQueryRoute.AnsweringNoHistory | src/api/src/routes/query.ts:40-83 | answering after a miss writes no history record |
| Json.Field | src/api/src/routes/query.ts:15 | a field is present exactly when the body is an object holding that name |
| Json.StringToNumber | backend-service/src/routes/analytics.ts:11 | a blank string converts to 0 |
| Json.IntegerTextRoundTrip | backend-service/src/routes/analytics.ts:11 | converting the decimal text of an integer back to a number gives that integer |
| Json.JsNumber | src/api/src/routes/query.ts:23 | a number converts to itself and an object to NaN |
| Json.NumberToString | src/api/src/routes/query.ts:30 | an integral number prints as its decimal digits |
| Json.JsString | src/api/src/routes/query.ts:24 | a string converts to itself |
| Json.ElementStrings | src/api/src/routes/query.ts:24 | an array's string form has one piece per element |
| Responses.ClampConfidence | backend-service/src/routes/query.ts:94-97 | the confidence lies in [0.2, 0.99], keeps a score already in range and clamps others to the nearer bound |
| Responses.TopScore | backend-service/src/routes/query.ts:96 | the first hit's non-zero score is used, and 0.5 when there is no hit or its score is 0 |
| Responses.Internal | backend-service/src/routes/query.ts:142-145 | a 500 INTERNAL carrying the error's message, or the fallback when the message is empty |
| Validation.ParseObjectId | backend-service/src/schemas/validation.ts:13-15 | an accepted id is returned unchanged |
| Validation.ObjectIdAccepts | backend-service/src/schemas/validation.ts:13-15 | an id is accepted exactly when it is 24 lower-case hex digits, so upper-case hex is refused |
| Validation.IntInAccepts | backend-service/src/schemas/validation.ts:5 | a number schema with bounds accepts exactly the integers within them; a missing value is `Required`, another type `Expected number, received <type>`, a fraction `Expected integer, received float`, then the `min` message before the `max` message |
| Validation.IdIssue | backend-service/src/schemas/validation.ts:6 | a paper-id element has no issue exactly when it is text of 24 lower-case hex digits |
| Validation.FirstIdIssueNone | backend-service/src/schemas/validation.ts:6 | no element issue exactly when every element is a well-formed id; otherwise the issue reported is that of the first bad element |
| Validation.RatingAccepts | backend-service/src/schemas/validation.ts:9-11 | a rating is accepted exactly when it is an integer from 1 to 5, and the accepted value is the number sent; a body that is not an object gets `Expected object, received <type>` and a missing rating `Required` |
| Validation.QueryAccepts | backend-service/src/schemas/validation.ts:3-7 | a query body is accepted exactly when it is an object and each field is; the question was 1 to 1000 UTF-16 code units before trimming and is kept trimmed, `top_k` is 1..10 and absent exactly when the field is missing, every paper id is a well-formed id |
| Validation.QueryFirstIssue | backend-service/src/schemas/validation.ts:3-7 | the message reported is the first issue: the object check, then `question`, then `top_k`, then `paper_ids` |
| Validation.QuestionMessages | backend-service/src/schemas/validation.ts:4 | a missing question is `Required`, another type `Expected string, received <type>`, empty text "String must contain at least 1 character(s)" and more than 1000 UTF-16 code units "String must contain at most 1000 character(s)" |
| Validation.PaperIdsMessages | backend-service/src/schemas/validation.ts:6 | a list that is not an array is `Expected array, received <type>`; an array is accepted exactly when every element is an id, and is otherwise refused with the issue of its first bad element |
| Validation.BodyMessageExamples | backend-service/src/schemas/validation.ts:3-4 | `null` gets "Expected object, received null"; an object without a question gets "Required", even when `top_k` is also out of range |
| Validation.QuestionMessageExamples | backend-service/src/schemas/validation.ts:4 | an empty question gets "String must contain at least 1 character(s)" and a number "Expected string, received number" |
| Validation.TopKMessageExamples | backend-service/src/schemas/validation.ts:5 | `top_k` 11 gets "Number must be less than or equal to 10" and 0 "Number must be greater than or equal to 1" |
| Validation.TopKTypeExamples | backend-service/src/schemas/validation.ts:5 | `top_k` 2.5 gets "Expected integer, received float" and `null` "Expected number, received null" |
| Validation.PaperIdsTypeExamples | backend-service/src/schemas/validation.ts:6 | a `paper_ids` string gets "Expected array, received string" |
| Validation.PaperIdsElementExample | backend-service/src/schemas/validation.ts:6 | a non-text element gets "Expected string, received <type>" |
| Validation.PaperIdsPatternExample | backend-service/src/schemas/validation.ts:6 | a text element that is not an id gets "Invalid" |
| Validation.AstralQuestionTooLong | backend-service/src/schemas/validation.ts:4 | a question of 501 emoji, 501 characters but 1002 UTF-16 code units, is refused as too long |
| Validation.RatingExamples | backend-service/tests/rating.test.ts:23-37 | a rating of 4 is accepted as 4; 6 is refused with "Number must be less than or equal to 5" and 2.5 with "Expected integer, received float"; the id `invalid` is refused with "Invalid ObjectId format" |
| Validation.BlankQuestionAccepted | backend-service/src/schemas/validation.ts:4 | a question of blanks passes the length check and becomes empty after trimming |
| PopularTopics.Numbered | backend-service/src/services/popularTopics.ts:21 | one numbered line per question |
| PopularTopics.TopicPromptNumbered | backend-service/src/services/popularTopics.ts:17-29 | the topic prompt lists the k-th question as `k+1. question` after the three header lines and ends with `Topic:` |
| PopularTopics.Summarize | backend-service/src/services/popularTopics.ts:10-33 | an empty question list fails with "No questions provided for summarization" before any call; otherwise the model is asked once with the topic prompt, and a topic has no surrounding whitespace |
| PopularTopics.TitleLabel | backend-service/src/services/popularTopics.ts:71 | the title label is never empty: a present non-empty title, otherwise `Unknown` |
| PopularTopics.PageLabel | backend-service/src/services/popularTopics.ts:73 | a missing page and page 0 both print `N/A` |
| PopularTopics.SourceBlocks | backend-service/src/services/popularTopics.ts:68-75 | one source block per context item |
| PopularTopics.FramedText | backend-service/src/services/popularTopics.ts:77-95 | text put in front of and after a piece keeps what the piece starts with and contains, and ends with the last piece |
| PopularTopics.OpeningShape | backend-service/src/services/popularTopics.ts:68-79 | the context part opens with `<context>` and holds every numbered source block |
| PopularTopics.InsightPromptShape | backend-service/src/services/popularTopics.ts:68-95 | the insight prompt starts with `<context>`, carries every context item as a numbered source block, and ends with the request to write about the topic |
| PopularTopics.TopicInsightResponds | backend-service/src/services/popularTopics.ts:49-56 | once the context is built, the insight depends only on the re-ranked hits and that context |
| PopularTopics.TopicInsightFails | backend-service/src/services/popularTopics.ts:49-53 | a failing retrieval or chunk store fails the insight with its error, after the retrieval (and the chunk lookup, if retrieval answered) |
| PopularTopics.TopicInsightUncertain | backend-service/src/services/popularTopics.ts:55-65 | with an empty context the topic gets the fixed uncertain insight with confidence 0.2 and no citations or sources, and the model is not called |
| PopularTopics.TopicInsightGrounded | backend-service/src/services/popularTopics.ts:67-97 | with a non-empty context the model is asked with the insight prompt of that context |
| PopularTopics.GroundedSpec | backend-service/src/services/popularTopics.ts:97-111 | generation is the last call; the insight succeeds exactly when the model answers, and then carries the topic, the reply, the context's citations and sources and the top score clamped into [0.2, 0.99] |
| PopularTopics.PopularNoQuestions | backend-service/src/services/popularTopics.ts:127-131 | with no questions the flow fails with "No questions found in database" after only the ranking lookup |
| PopularTopics.TopicInsightStarts | backend-service/src/services/popularTopics.ts:49-106 | retrieval for the topic is the first call and a successful insight is about the topic asked |
| PopularTopics.GroundedStarts | backend-service/src/services/popularTopics.ts:49-106 | on the generating path retrieval still comes first and the insight is about the topic asked |
| PopularTopics.GroundedFirst | backend-service/src/services/popularTopics.ts:49-106 | generation keeps retrieval as the first call and the topic as asked |
| PopularTopics.PopularSteps | backend-service/src/services/popularTopics.ts:125-147 | with questions and a topic, the flow fetches the ranking, summarises, then produces the topic's insight from seven hits, and returns it with the questions |
| PopularTopics.PopularSpec | backend-service/src/services/popularTopics.ts:117-152 | a popular topic analyses exactly the questions fetched (ten were asked for), its topic is the trimmed summary of them, and the calls open with the ranking lookup of ten, the topic prompt, and the retrieval of seven hits for the topic with no paper filter |
| Ingestion.EnqueueIngest | src/api/src/services/ingestionQueue.ts:13-22 | enqueuing appends one `ingest` job for the paper, tried at most three times with exponential back-off from 1000 ms, and keeps the queue before it |
| Ingestion.Batches | src/api/src/services/ingestionQueue.ts:44-49 | the batches put back together are the texts, none is empty, none exceeds 64 and all but the last hold exactly 64 |
| Ingestion.EmbedFrom | src/api/src/services/ingestionQueue.ts:48-53 | batches are embedded in order, one call each, stopping at the first failure; on success the vectors are those of all batches in order and the size is the last batch's |
| Ingestion.EmbedAll | src/api/src/services/ingestionQueue.ts:44-53 | the batching loop over slices of 64 produces the same vectors, size and calls as embedding the batches in order |
| Ingestion.BatchesStep | src/api/src/services/ingestionQueue.ts:48-49 | the batches from position i are the slice at i followed by the batches after it |
| Ingestion.VectorsAligned | src/api/src/services/ingestionQueue.ts:52-69 | when the embedder returns one vector per text there is one vector per chunk |
| Ingestion.InOrder | src/api/src/services/ingestionQueue.ts:40 | sorting by order keeps exactly the chunks loaded |
| Ingestion.TitleOf | src/api/src/services/ingestionQueue.ts:72 | the point's title is the paper's non-empty title, or else its file name |
| Ingestion.PointsOf | src/api/src/services/ingestionQueue.ts:66-80 | chunk k gets id base+k, the paper id, the paper title, its section, page and order as chunk index, the model name, the vector size, and the k-th vector when there is one |
| Ingestion.UpsertAll | src/api/src/services/ingestionQueue.ts:81 | points whose ids are not written stay as they were |
| Ingestion.UpsertAllStores | src/api/src/services/ingestionQueue.ts:81 | among points with distinct ids every point is stored as written |
| Ingestion.Texts | src/api/src/services/ingestionQueue.ts:44 | one text per chunk, in order |
| Ingestion.AttemptFailsEarly | src/api/src/services/ingestionQueue.ts:32-42 | a missing paper fails with "paper not found" after one lookup, a paper without chunks with "no chunks to index" after the two lookups, before anything is embedded or written |
| Ingestion.AttemptEmbedFailure | src/api/src/services/ingestionQueue.ts:48-53 | an embedder failure fails the attempt with the embedder's error, with nothing written |
| Ingestion.AttemptWriteFailure | src/api/src/services/ingestionQueue.ts:58-88 | a failed collection creation writes nothing; a failed upsert leaves only the created collection; a failed status update leaves the points written and the paper as it was; each ends the attempt with its own error as the last operation |
| Ingestion.AttemptLeavesRest | src/api/src/services/ingestionQueue.ts:30-88 | no attempt changes a chunk, the queue, the set of papers or any chunk count; a failed one changes no paper, and one that wrote no points changes no point |
| Ingestion.OrderedAscending | src/api/src/services/ingestionQueue.ts:37-41 | the chunks are indexed in ascending order |
| Ingestion.AttemptSucceeds | src/api/src/services/ingestionQueue.ts:55-88 | a successful attempt marks the paper indexed with the time of the status update, which need not be the time of the ids or of the payloads, changes no other paper and no chunk, and creates a missing collection |
| Ingestion.AttemptOps | src/api/src/services/ingestionQueue.ts:32-88 | the operations are the two lookups, the embedder calls, the collection check, the upsert and the status update, in that order |
| Ingestion.AttemptOrder | src/api/src/services/ingestionQueue.ts:58-88 | the status update is last, right after the upsert, and the collection is created with cosine distance exactly when it was missing |
| Ingestion.IndexOpsOrder | src/api/src/services/ingestionQueue.ts:58-88 | in the operation list of an attempt the upsert and status update close it and creation happens only when the collection is missing |
| Ingestion.AttemptWritesPoints | src/api/src/services/ingestionQueue.ts:66-81 | once the upsert succeeded, whether or not the status update did, chunk k of the paper in ascending order is stored as point base+k with the paper id, its order as chunk index, its section, the paper's title or file name and the k-th payload time |
| Ingestion.StoredPoints | src/api/src/services/ingestionQueue.ts:66-88 | after the upsert, whether or not the status update followed, chunk k is stored at id base+k with its fields |
| Ingestion.IndexingWritesPoints | src/api/src/services/ingestionQueue.ts:66-81 | indexing a chunk list stores chunk k as point base+k with the paper id, its order, its section, the title and the k-th payload time |
| Ingestion.AttemptResult | src/api/src/services/ingestionQueue.ts:30-88 | a successful attempt found the paper and the embedder answered every batch |
| Ingestion.AttemptIdsDistinct | src/api/src/services/ingestionQueue.ts:66-68 | within one attempt the point ids are pairwise distinct |
| Ingestion.AttemptKeepsOtherPoints | src/api/src/services/ingestionQueue.ts:81 | points outside the attempt's id range stay as they were |
| Ingestion.IndexingKeepsOtherPoints | src/api/src/services/ingestionQueue.ts:81 | indexing leaves points outside its id range untouched |
| Ingestion.AttemptKeepsValid | src/api/src/services/ingestionQueue.ts:30-88 | every attempt, successful or failed at any write, keeps every chunk owned by a stored paper and every chunk count right |
| Ingestion.RetryDuplicatesPoints | src/api/src/services/ingestionQueue.ts:66-81 | if an earlier attempt left chunk k's point at an id outside a later attempt's id range, that point stays and the later attempt adds a second point of the same paper and chunk index |
| Ingestion.RetryOverwritesPoints | src/api/src/services/ingestionQueue.ts:66-81 | if an earlier point of another chunk sits at id base+j inside a later attempt's range, the later attempt replaces it with its own point for chunk j |
| Ingestion.OrderedAfter | src/api/src/services/ingestionQueue.ts:37-41 | an attempt changes no chunk, so a later attempt for the paper indexes the same chunks in the same order |
| DocStore.ChunksOf | backend-service/src/routes/papers.ts:56-58 | the chunks of a paper are exactly the stored chunks with its id, in store order |
| DocStore.RemoveChunks | backend-service/src/routes/papers.ts:96-98 | removing a paper's chunks keeps exactly the chunks of other papers, and the two parts account for every chunk |
| DocStore.ChunksOfConcat | backend-service/src/routes/papers.ts:226 | the chunks of a paper in appended stores are its chunks before followed by its new ones |
| DocStore.RemoveKeepsOthers | backend-service/src/routes/papers.ts:96-98 | removing one paper's chunks leaves every other paper's chunks as they were |
| DocStore.RemoveLeavesNone | backend-service/src/routes/papers.ts:96-98 | removing a paper's chunks removes all of them |
| DocStore.NoChunksWithoutPaper | backend-service/src/routes/papers.ts:208-227 | in valid stores a paper with no stored document has no chunks |
| DocStore.AddPaperKeepsValid | backend-service/src/routes/papers.ts:208-227 | adding a new paper with its own chunks and the matching chunk count keeps the stores valid |
| DocStore.AddPaperCounts | backend-service/src/routes/papers.ts:212 | after adding a paper every paper's chunk count matches its stored chunks |
| DocStore.AddPaperOwners | backend-service/src/routes/papers.ts:219-226 | after adding a paper every stored chunk belongs to a stored paper |
| DocStore.OwnChunks | backend-service/src/routes/papers.ts:219-226 | a list of a paper's own chunks is its own chunk list |
| DocStore.ForeignChunks | backend-service/src/routes/papers.ts:219-226 | a paper has no chunks among chunks of other papers |
| DocStore.RemovePaperKeepsValid | backend-service/src/routes/papers.ts:95-99 | removing a paper together with its chunks keeps the stores valid |
| DocStore.RemoveChunksOnly | backend-service/src/routes/papers.ts:96-99 | removing a paper's chunks but not the paper keeps the stores valid exactly when the paper counted no chunks |
| PaperRoutes.StoredChunks | backend-service/src/routes/papers.ts:219-225 | one chunk document per extracted piece, in order, under the new paper's id with its text, section, page and order |
| PaperRoutes.UploadRejects | backend-service/src/routes/papers.ts:159-208 | an upload without a file is a 400 BAD_REQUEST and one whose extractor answers with a non-2xx status a 502 EMBEDDER_FAILED; an extractor that cannot be reached or does not answer JSON, and a paper document that cannot be written, are a 500 INTERNAL; none of them stores anything |
| PaperRoutes.UploadStores | backend-service/src/routes/papers.ts:168-232 | a successful upload stores the paper as extracted with a chunk count equal to the number of pieces, stores those chunks under the new id, enqueues ingestion as the last operation, and writes chunks only when there are pieces |
| PaperRoutes.UploadPartial | backend-service/src/routes/papers.ts:207-239 | once the paper is stored, a later throw is a 500 and what was written stays: a chunk insert that stopped keeps only the chunks written before it and queues no job; a failed enqueue keeps paper and chunks in full |
| PaperRoutes.NewChunksOnly | backend-service/src/routes/papers.ts:208-227 | the chunks of the new paper are exactly the ones just stored |
| PaperRoutes.UploadKeepsValid | backend-service/src/routes/papers.ts:157-240 | every chunk an upload leaves belongs to a stored paper, and the stores stay valid exactly unless `insertMany` stopped before writing every chunk, leaving the new paper's chunk count too high |
| PaperRoutes.HandleGet | backend-service/src/routes/papers.ts:45-81 | reading a paper's details changes no store |
| PaperRoutes.HandleStats | backend-service/src/routes/papers.ts:120-155 | reading a paper's statistics changes no store |
| PaperRoutes.LookupErrors | backend-service/src/routes/papers.ts:47-130 | a malformed id is a 400 VALIDATION_ERROR with "Invalid ObjectId format" and an unknown one a 404 NOT_FOUND, for details, statistics and delete alike, and a refused delete changes nothing |
| PaperRoutes.UploadThenGet | backend-service/src/routes/papers.ts:208-215 | after an upload the paper's details show it extracted, not indexed, under its file name, with a chunk count equal to the number of extracted pieces |
| PaperRoutes.RemovePoints | backend-service/src/routes/papers.ts:95 | deleting a paper's vectors keeps exactly the points of other papers, unchanged |
| PaperRoutes.DeleteRemoves | backend-service/src/routes/papers.ts:83-105 | a delete removes the vectors, then the chunks, then the paper, reports the chunks removed and `removed_paper: true`; nothing of the paper is left and nothing of any other paper is touched |
| PaperRoutes.DeletePartial | backend-service/src/routes/papers.ts:95-116 | a delete whose writes do not all succeed is a 500 with the first error and keeps the paper: a failed vector deletion changes nothing, a failed chunk deletion keeps the chunks, a failed paper deletion removes the chunks but not the paper |
| PaperRoutes.RemovalLeaves | backend-service/src/routes/papers.ts:95-99 | after removing a paper's vectors, chunks and document nothing of it is left and every other paper and point is as it was |
| PaperRoutes.DeleteKeepsValid | backend-service/src/routes/papers.ts:83-105 | the stores stay valid after a delete exactly unless the chunks were removed and the paper document, which counts them, was not |
| PaperRoutes.DeleteThenGet | backend-service/src/routes/papers.ts:45-130 | once deleted, a paper's details and statistics are 404 NOT_FOUND |
| RateLimit.ClientKey | backend-service/src/middlewares/rateLimit.ts:17-27 | the lower-case forwarding header wins over the capitalised one; a non-empty first hop is the key, else a non-empty `req.ip`, else the socket address, else the empty key |
| RateLimit.FirstHopShape | backend-service/src/middlewares/rateLimit.ts:22-25 | a textual header counts under a trimmed piece of it that holds no comma |
| RateLimit.Hit | backend-service/src/middlewares/rateLimit.ts:28-45 | only the client's bucket changes; the request is refused exactly when its count exceeds max; the remaining count is max minus the count but never negative; the limit header is max; the reset header is the reset time in whole seconds, rounded down |
| RateLimit.BumpWindow | backend-service/src/middlewares/rateLimit.ts:29-34 | a new client and a client whose window has passed start a window at now with count 1; at exactly the reset time the window is kept and the count goes up by one |
| RateLimit.Refusal | backend-service/src/middlewares/rateLimit.ts:45-52 | a request is answered 429 RATE_LIMITED "Too many requests" exactly when it is limited, and otherwise goes on to the route |
| RateLimit.RefusedAboveMax | backend-service/src/middlewares/rateLimit.ts:30-51 | within a window, once a client has used max requests the next is refused with nothing remaining and the same reset time |
| RateLimit.RunWithinWindow | backend-service/src/middlewares/rateLimit.ts:28-52 | requests from a new client that all fall within the first request's window are counted one by one in that window, and exactly the first max of them are let through |
| RateLimit.RunLeavesOthers | backend-service/src/middlewares/rateLimit.ts:29-35 | requests from one client never touch another client's bucket |
| LegacyRateLimit.ClientKey | src/api/src/middlewares/rateLimit.ts:12 | the key is a non-empty `req.ip`, else a non-empty remote address, else `unknown`, so it is never empty |
| LegacyRateLimit.Limit | src/api/src/middlewares/rateLimit.ts:12-38 | the request's key bucket is bumped, no other bucket changes, and it is refused exactly when the count exceeds max |
| LegacyRateLimit.AnonymousClientsShareBucket | src/api/src/middlewares/rateLimit.ts:12-20 | clients without an address all count in the `unknown` bucket: a second such request within the window finds the first one's count |
| TextChunker.NormalizeHeading | embedder-service/core/text.py:7-11 | a normalised heading has no whitespace at either end, only single plain spaces, and does not start with a digit or a dot |
| TextChunker.NumberingDropped | embedder-service/core/text.py:8-9 | dropping the leading digits, dots and whitespace of stripped text leaves text that starts with none of them and has no whitespace at either end |
| TextChunker.NormalizeIdempotent | embedder-service/core/text.py:7-11 | a normalised heading is its own normalisation |
| TextChunker.LastPeriod | embedder-service/core/text.py:51 | the position found holds ". " and no later position does; -1 means there is none |
| TextChunker.WindowEnd | embedder-service/core/text.py:48-53 | the window ends max_chars after its start or at the end of the text; inside the text it is pulled back to just after the last ". " in it; it always moves past the start and never spans more than max_chars |
| TextChunker.NextStart | embedder-service/core/text.py:60-63 | the next window starts overlap characters before the end, or, when that would not move forward, min(100, max_chars // 2) after the start; it never moves backwards and moves forward when max_chars is at least 2 |
| TextChunker.ChunkText | embedder-service/core/text.py:37-67 | a text no longer than max_chars is its own only chunk, unstripped; otherwise there are at most len/10 + 100 chunks, each non-empty, within max_chars, stripped, and the stripped text of a window of the input |
| TextChunker.CutWindows | embedder-service/core/text.py:40-67 | the window loop, with its iteration cap, yields the chunks of the windows from the start of the text |
| TextChunker.LoopStep | embedder-service/core/text.py:44-66 | one turn of the loop appends the window's chunk and continues from the next start unless it breaks |
| TextChunker.LoopEnd | embedder-service/core/text.py:44 | once the start is past the end of the text no chunk is added |
| TextChunker.Chunks | embedder-service/core/text.py:37-67 | the chunks returned: the text itself when short enough, otherwise at most len/10 + 100 good chunks |
| TextChunker.WindowChunk | embedder-service/core/text.py:54-56 | a window yields at most one chunk, and only a non-empty stripped one |
| TextChunker.Windows | embedder-service/core/text.py:42-47 | the safety valve bounds the number of chunks by len/10 + 100 less the iterations already made |
| TextChunker.WindowsGood | embedder-service/core/text.py:44-66 | every chunk the loop emits is non-empty, within max_chars, stripped, and the stripped text of one window |
| TextChunker.Advance | embedder-service/core/text.py:44-66 | one window's chunks followed by the rest of the loop are all the loop's chunks, and the loop goes on only within the iteration cap |
| TextChunker.WindowsStep | embedder-service/core/text.py:48-66 | the loop from a start is the window's chunk, then the loop from the next start unless the window reached the end or the next start is past it |
| TextChunker.ShortTextUnchanged | embedder-service/core/text.py:37-39 | with the defaults (1800 characters, overlap 200) a text of at most 1800 characters comes back whole |
| Extractor.Or | embedder-service/routes.py:62 | `a or b` yields the first value when it is present and non-empty, otherwise the second |
| Extractor.MetaOf | embedder-service/routes.py:60-66 | the title is the detected title when there is one, else the metadata title when non-empty, else the file name; the file name and page count are carried through |
| Extractor.ReadPages | embedder-service/routes.py:68-92 | the page loop reads exactly the pages that `PagesRead` describes |
| Extractor.PagesReadOrder | embedder-service/routes.py:72-81 | the pages read are the first pages in order, a failing page read as empty text, and at most 80 of them |
| Extractor.PagesReadBudget | embedder-service/routes.py:73-83 | reading stops before the last page only at 80 pages or once the characters read exceed 2,000,000, and the pages before the last one read stay within that budget |
| Extractor.PartsOfPage | embedder-service/routes.py:99-102 | every chunk of a page becomes a part labelled with that page's number, in order |
| Extractor.PartsShape | embedder-service/routes.py:99-102 | every part is a chunk of the non-blank page it names, page numbers start at the first page's number, and parts come in page order |
| Extractor.HereFromPage | embedder-service/routes.py:100-102 | the parts of the first page are chunks of that page, or none when it is blank |
| Extractor.RestFromPages | embedder-service/routes.py:99 | parts of the later pages carry page numbers after the first page's |
| Extractor.ConcatFromPages | embedder-service/routes.py:99-102 | the first page's parts followed by the later pages' parts stay in page order and come from the pages they name |
| Extractor.Taken | embedder-service/routes.py:103-104 | the loop keeps a prefix of the parts of at most 4000 parts, and all of them when there are no more |
| Extractor.Label | embedder-service/routes.py:105-119 | before the references a part with headings takes its first heading, its last heading becomes current unless it is "keywords" in any case, and "references" or "reference" starts the references; a part without headings takes the current section; inside the references every part is "References" |
| Extractor.SectionName | embedder-service/routes.py:124 | an empty section becomes "Unknown"; any other is kept |
| Extractor.LabelAll | embedder-service/routes.py:94-128 | one response chunk per part, with id "c_" and its order, numbered consecutively, keeping the part's text and page, and never with an empty section |
| Extractor.LabelAllAt | embedder-service/routes.py:105-124 | each chunk's section is what the labelling step gives it in the state left by the parts before it |
| Extractor.CursorShift | embedder-service/routes.py:99-128 | the state after k parts equals the state after k - 1 parts of the rest, started from the state after the first part |
| Extractor.ReferencesLast | embedder-service/routes.py:117-119 | once the references have started, the state stays in the references with current section "References" |
| Extractor.ReferencesStick | embedder-service/routes.py:113-119 | every chunk after the one that starts the references is labelled "References" |
| Extractor.KeywordsNotCarried | embedder-service/routes.py:108-112 | a part whose only heading is "Keywords" is labelled "Keywords" and leaves the current section unchanged |
| Extractor.Runs | embedder-service/routes.py:130-141 | there is one run per maximal block of equal sections, none for no chunks; the first run starts at the first chunk's page, the last ends at the last chunk's page, and neighbouring runs have different names |
| Extractor.RunNames | embedder-service/routes.py:130-141 | the run names are the chunks' sections with repeated neighbours reduced to one |
| Extractor.ExtendLast | embedder-service/routes.py:140 | extending the last run to a later page keeps the runs in page order |
| Extractor.AppendRun | embedder-service/routes.py:136-139 | opening a new run at a later page keeps the runs in page order |
| Extractor.RunPages | embedder-service/routes.py:130-141 | for chunks in page order, each run starts no later than it ends and no earlier than the previous run ends |
| Extractor.BuildShape | embedder-service/routes.py:92-143 | every response has at most 4000 chunks numbered 0, 1, ... in page order, each on a page between 1 and the page count, and its section runs are in page order |
| Extractor.Extract | embedder-service/routes.py:38-143 | a name not ending in ".pdf" in any case is a 400 "Only PDF files are supported"; an unreadable file is a 400 "Failed to read PDF: " with the reason; otherwise the response is built from exactly the pages the page loop reads, is well formed and covers at most 80 pages |
| Extractor.ToExtraction | backend-service/src/routes/papers.ts:208-225 | the backend keeps the title, the section runs unchanged, and one piece per chunk with its text, section, page and order |
| TitleHeuristic.Texts | embedder-service/core/pdf.py:24-28 | one stripped text per span, in order |
| TitleHeuristic.MaxSize | embedder-service/core/pdf.py:36 | the largest size: no span is larger and some span has it |
| TitleHeuristic.LineOf | embedder-service/core/pdf.py:19-38 | a layout line is skipped exactly when none of its spans has text; a kept line keeps its vertical position and its joined text begins with a non-space |
| TitleHeuristic.JoinedHasWords | embedder-service/core/pdf.py:35 | joining texts whose first begins with a non-space gives text that begins with a non-space |
| TitleHeuristic.LineSize | embedder-service/core/pdf.py:29-36 | a line's size is the size of one of its spans with text, and no span with text is larger |
| TitleHeuristic.Somes | embedder-service/core/pdf.py:33-34 | the present values are exactly the values of the present options |
| TitleHeuristic.LinesOf | embedder-service/core/pdf.py:20-21 | one optional line per layout line, in order |
| TitleHeuristic.Lines | embedder-service/core/pdf.py:19-53 | the lines considered are exactly the layout lines with text that are not noise: at least six characters, not starting with abstract, keywords, received:, revised:, accepted:, copyright or licensee, and not containing doi |
| TitleHeuristic.Chosen | embedder-service/core/pdf.py:57-66 | the chosen line is one of the lines considered |
| TitleHeuristic.ChosenIsLargest | embedder-service/core/pdf.py:57-66 | when some line has at least four words the chosen one has four words and no four-word line is larger; otherwise no line is larger than the chosen one |
| TitleHeuristic.FirstWhereLargest | embedder-service/core/pdf.py:58-64 | in a list sorted largest first, the first element passing the test is the largest of those that pass, and the head is the largest of all |
| TitleHeuristic.Near | embedder-service/core/pdf.py:70 | the candidates are exactly the lines whose size is at most half a point below the chosen size |
| TitleHeuristic.Highest | embedder-service/core/pdf.py:70-76 | one or two candidate lines are taken, each near the chosen size |
| TitleHeuristic.HighestAreTop | embedder-service/core/pdf.py:71-76 | every candidate left out lies no higher on the page than those taken |
| TitleHeuristic.TitleLines | embedder-service/core/pdf.py:68-76 | the title has one or two lines, each a considered line within half a point of the chosen size |
| TitleHeuristic.TitleLinesHighest | embedder-service/core/pdf.py:68-76 | the title lines are the topmost of the candidates |
| TitleHeuristic.Finish | embedder-service/core/pdf.py:77-80 | a title is non-empty, has no whitespace at either end and only single plain spaces; there is one whenever the first part begins with a non-space |
| TitleHeuristic.LineTexts | embedder-service/core/pdf.py:73-74 | one stripped text per title line, in order |
| TitleHeuristic.Title | embedder-service/core/pdf.py:6-80 | there is a title exactly when the first page can be read and some line survives the filter, and it is then non-empty, trimmed and single-spaced |
| TitleHeuristic.FirstCharKept | embedder-service/core/pdf.py:78 | stripping a text that begins with a non-space keeps it non-empty and beginning with a non-space |
| Strings.Lower | backend-service/src/services/retrieval.ts:76 | lower-casing keeps the length and maps each character on its own |
| Strings.Trim | backend-service/src/routes/query.ts:28 | trimming leaves a contiguous slice of the text with no whitespace at either end, and leaves text without edge whitespace unchanged |
| Strings.CollapseShape | backend-service/src/routes/query.ts:28 | replacing every whitespace run with one space leaves only single plain spaces, and every other character comes from the input |
| Strings.CollapseFixed | embedder-service/core/text.py:10 | collapsing whitespace changes nothing in text that already has only single plain spaces |
| Strings.NatToStringValue | embedder-service/routes.py:122 | the decimal digits written for a chunk number read back as that number |
| Strings.LexSortSorted | backend-service/src/routes/query.ts:31 | the sorted paper ids are in ascending character order, which is UTF-16 code-unit order for ids without characters beyond U+FFFF |
| Strings.LexSortPermutation | backend-service/src/routes/query.ts:31 | paper-id lists holding the same ids in any order sort to the same list |
| Strings.Utf16Length | backend-service/src/schemas/validation.ts:4 | the UTF-16 length of a text lies between its number of characters and twice that |
| Strings.Utf16LengthBmp | src/api/src/services/context.ts:68 | the UTF-16 length is the number of characters exactly when no character lies beyond U+FFFF |
| Strings.Utf16LengthAstral | src/api/src/services/context.ts:68 | a text made only of characters beyond U+FFFF has twice as many UTF-16 code units as characters |
| Sorting.SortSorted | backend-service/src/services/retrieval.ts:87 | sorting by score leaves the scores non-increasing |
| Sorting.SortStable | backend-service/src/services/retrieval.ts:87 | sorting by score keeps the input order of items with equal scores |
| Seqs.DedupeSpec | src/api/src/services/context.ts:78-82 | de-duplication keeps each value once, adds none, and orders the values by their first occurrence |

## Left out

- TextChunker.ChunkText: requires `max_chars` of at least 1. With 0 or a negative value the Python code slices with non-positive ends and, for 0, spins until its iteration cap; those inputs are not modelled. The same bound is on `TextChunker.Chunks`, `TextChunker.CutWindows`, `TextChunker.Windows`, `TextChunker.WindowEnd`, `TextChunker.NextStart` and `TextChunker.Advance`.
- TextChunker.NormalizeHeading: states the shape of a normalised heading and its idempotence, not character-for-character equality with Python's `re.sub` over Unicode whitespace.
- TitleHeuristic.Chosen: its own contract only says the chosen line is one of the lines; the choice itself is stated by `TitleHeuristic.ChosenIsLargest`. Ties in size are broken by the vertical position through the stable sort, which no lemma states.
- Strings.Lower: ASCII only. JavaScript's `toLowerCase`, Python's `lower` and the whitespace classes of `trim`, `strip` and `\s` are modelled on ASCII; Unicode case mapping and Unicode whitespace are left out.
- Floating point: scores, weights, confidences and font sizes are `real`. IEEE rounding, NaN and infinities are not modelled, and `Number()` on a string reads only an optional sign followed by ASCII digits (or blank text as 0). Any other string reads as NaN; decimal, exponent and hexadecimal forms are not modelled. The decimal text of a non-integer number (`String(x)`) is a parameter of the older query route.
- JavaScript object key order and the order in which the database's `$group` stage emits groups: the popularity aggregation keeps groups in first-occurrence order before its count sort. The database may order equal counts differently.
- The prototype lookup of `SECTION_WEIGHTS` (a section named `constructor`) is not modelled; the weights are a finite map with default 1.0.
- Node lower-cases incoming header names; the rate limiter's model treats the lower-case and capitalised `X-Forwarded-For` entries as two separate, optional inputs.
- The newer revision's context builder, prompt builder, analytics service and embedder client, and the older revision's retrieval service, are not part of this model. They are replaced by the older revision's components or by parameters, as described above.
- The cache, vector index, document database, queue, embedder, language model, heading detector and PDF library are parameters or store values. Their connections, retries and timeouts are not modelled.
- Store failures: every write of the upload (`insertOne`, `insertMany`, the enqueue), of the delete (the vector deletion, `deleteMany`, `deleteOne`) and of an ingestion attempt (`createCollection`, `upsert`, `updateOne`) has an outcome, and a failed write keeps the writes before it. The reads (`findOne`, `find`, `countDocuments`, the vector count) are assumed to succeed; a failing read is not modelled.
- Ingestion.Attempt: `getCollection` is taken to throw exactly when the collection is missing. Any other error it throws, which would also lead to `createCollection`, is not modelled.
- PaperRoutes.HandleUpload: `insertMany` is modelled as an ordered insert, so a failure keeps a prefix of the chunk documents. An unordered insert, which may keep any subset, is not modelled.
- Strings.Utf16Length: strings are sequences of Unicode scalar values. Text holding an unpaired UTF-16 surrogate cannot be represented, so the lengths of such text are not modelled.
- SHA-256 (FIPS 180-4) is an uninterpreted function parameter; only its input text and the 16-character prefix taken from its hex digest are modelled.
- The clock (`Date.now()`, `new Date()`) is a parameter. The three readings of one ingestion attempt are separate: the id base, the payload time of each point, and the time of the status update. The text formatting of dates is not modelled.
- The `-1` "unknown" count that vector deletion returns is an opaque value passed through to the reply. Counting a paper's vectors is modelled as the exact count of its points; the scroll-and-count fallback loop is left out because its termination depends on the server.
- Timing and concurrency: queue delivery, retry scheduling, backoff delays, concurrent requests and `Promise.all` are left out. One ingestion attempt is one sequential transition, and a retry is another attempt with a later clock.
- The paper list route (`GET /papers`), the history and rating routes, the health and readiness routes, configuration, logging, request ids and the error handler are left out as plumbing.
- The upload size limit of the multipart parser (25 MB) is not modelled. The test-mode shortcuts of the upload and query routes are modelled; those of the vector-store helpers (which return 0 under test) are not.
- The extractor's response is a typed value: a response whose `chunks` is not an array, or whose fields have other shapes, is not modelled.
- The embedder's `/embed` and `/gc` routes, the PDF reading library and the heading regular expressions (multiline anchors, negative look-ahead, case-insensitive matching) are left out. Heading detection is a function parameter of `Extractor`. The first page's text layout is a value: a list of lines with spans, sizes and positions. Font sizes that cannot be converted to numbers are not modelled.
- The memory housekeeping of the embedder (`gc.collect()`, closing the document) is left out.
- The user interface and the client libraries are left out.
