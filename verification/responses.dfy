/** What the answering routes send back and the external calls they make,
    shared by the query routes of both revisions and the popular-topic
    flow. */
module Responses {
  import opened Wrappers
  import opened Records
  import opened Json
  import Context

  /** The answer payload: text, citations, source titles and confidence. */
  datatype Answer = Answer(answer: string, citations: seq<Context.Citation>, sourcesUsed: seq<string>, confidence: real)

  /** A successful body is either a payload read back from the cache, as
      parsed JSON, or an answer computed by this request. */
  /** A topic and what the papers say about it. */
  datatype Insight = Insight(topic: string, insight: string, citations: seq<Context.Citation>,
                             sourcesUsed: seq<string>, confidence: real)

  /** The popular-topic payload: the insight and the questions it came from. */
  datatype Popular = Popular(insight: Insight, questionsAnalyzed: seq<string>)

  /** A reply body: a JSON value passed through as parsed or computed
      elsewhere, a fresh answer, or a fresh popular topic. */
  datatype Body = Stored(value: Json) | Fresh(answer: Answer) | Topic(popular: Popular)

  datatype Response = Ok(body: Body) | Error(status: int, code: string, message: string)

  const UncertainText := "I am uncertain because the retrieved context did not cover this question."

  /** The fixed reply when retrieval found nothing usable. */
  const Uncertain := Answer(UncertainText, [], [], 0.2)

  /** `Math.min(0.99, Math.max(0.2, s))` */
  function ClampConfidence(s: real): (c: real)
    ensures 0.2 <= c <= 0.99
    ensures 0.2 <= s <= 0.99 ==> c == s
    ensures s < 0.2 ==> c == 0.2
    ensures s > 0.99 ==> c == 0.99
  {
    if s > 0.99 then 0.99 else if s < 0.2 then 0.2 else s
  }

  /** `reranked[0]?.score ? Number(reranked[0].score) : 0.5`: the first
      score when there is one and it is not zero. */
  function TopScore(hits: seq<Hit>): (s: real)
    ensures |hits| > 0 && hits[0].score != 0.0 ==> s == hits[0].score
    ensures |hits| == 0 || hits[0].score == 0.0 ==> s == 0.5
  {
    if |hits| > 0 && hits[0].score != 0.0 then hits[0].score else 0.5
  }

  /** The 500 reply: the error's message, or `fallback` when it has none. */
  function Internal(message: string, fallback: string): (r: Response)
    ensures r.Error? && r.status == 500 && r.code == "INTERNAL"
    ensures r.message == (if message == "" then fallback else message)
  {
    Error(500, "INTERNAL", if message != "" then message else fallback)
  }

  /** One retrieved source as the history keeps it. */
  datatype TopSource = TopSource(paperId: string, section: Option<string>, page: Option<int>, score: real)

  /** The history record written after a grounded answer. */
  datatype HistoryRecord = HistoryRecord(
    question: string,
    normalizedQuestion: string,
    paperIds: Option<seq<string>>,
    answer: string,
    retrievalTimeMs: int,
    genTimeMs: int,
    totalTimeMs: int,
    topSources: seq<TopSource>,
    citations: seq<Context.Citation>,
    sourcesUsed: seq<string>,
    confidence: real,
    createdAt: int)

  /** A cached text counts as a hit only when it is non-empty (`if (cached)`). */
  predicate IsHit(cached: Option<string>) {
    cached.Some? && cached.value != ""
  }

  /** An external call, in the order a request makes them. The older route
      can ask for a fractional number of hits, so `topK` is a number. */
  datatype Call =
    | CacheGet(key: string)
    | CacheSet(key: string, ttlSeconds: int, value: string)
    | Retrieve(question: string, topK: real, paperIds: Option<seq<string>>)
    | LoadChunks
    | Generate(prompt: string)
    | SaveHistory(record: HistoryRecord)
    | FetchTopQuestions(limit: int)
    | Aggregate(rankLimit: real)

  /** A reply together with the calls made to produce it. */
  datatype Outcome = Outcome(response: Response, calls: seq<Call>)

  predicate NoGeneration(calls: seq<Call>) {
    forall i | 0 <= i < |calls| :: !calls[i].Generate?
  }

  predicate NoWrites(calls: seq<Call>) {
    forall i | 0 <= i < |calls| :: !calls[i].CacheSet? && !calls[i].SaveHistory?
  }
}
