/** The analytics routes of the newer service: the most asked questions
    with a clamped limit, and the popular topic behind a five-minute cache. */
module AnalyticsRoutes {
  import opened Wrappers
  import opened Json
  import opened Responses
  import opened PopularTopics

  // ---------------------------------------------------------------------
  // GET /analytics/top-questions

  /** `Math.max(1, Math.min(Number(limit) || 20, 100))`; a missing limit is
      NaN and so 20. */
  function LimitOf(raw: Option<Json>): (limit: real)
    ensures 1.0 <= limit <= 100.0
    ensures raw.None? ==> limit == 20.0
    ensures raw.Some? && JsNumber(raw.value).None? ==> limit == 20.0
    ensures (raw.Some? && JsNumber(raw.value).Some?
             ==> var n := JsNumber(raw.value).value;
                 (n == 0.0 ==> limit == 20.0)
                 && (n != 0.0 && n < 1.0 ==> limit == 1.0)
                 && (1.0 <= n <= 100.0 ==> limit == n)
                 && (n > 100.0 ==> limit == 100.0))
  {
    var n := if raw.None? then None else JsNumber(raw.value);
    var v := if n.None? || n.value == 0.0 then 20.0 else n.value;
    RMax(1.0, RMin(v, 100.0))
  }

  /** `aggregate` is the ranking query, whose source is not part of this
      model; its result is sent as it is. */
  function TopQuestionsRoute(raw: Option<Json>, aggregate: real -> Result<Json>): (o: Outcome)
    ensures o.calls == [Aggregate(LimitOf(raw))]
    ensures aggregate(LimitOf(raw)).Success? ==> o.response == Ok(Stored(aggregate(LimitOf(raw)).value))
    ensures aggregate(LimitOf(raw)).Failure? ==> o.response == Internal(aggregate(LimitOf(raw)).error, "ranking failed")
  {
    var limit := LimitOf(raw);
    match aggregate(limit)
    case Failure(e) => Outcome(Internal(e, "ranking failed"), [Aggregate(limit)])
    case Success(data) => Outcome(Ok(Stored(data)), [Aggregate(limit)])
  }

  // ---------------------------------------------------------------------
  // GET /analytics/popular

  const PopularKey := "popular:topic:latest"

  const PopularTtl := 300

  /** Everything outside the handler: the cache, `JSON.parse`,
      `JSON.stringify` and the services of the popular-topic flow. */
  datatype Env = Env(
    cacheGet: string -> Result<Option<string>>,
    cacheSet: (string, int, string) -> Result<()>,
    decode: string -> Result<Json>,
    encode: Popular -> string,
    services: Services)

  /** The error reply: the no-questions message is a 404, anything else a
      500 with the error's message. */
  function Failed(message: string): (r: Response)
    ensures r.Error?
    ensures r.status == 404 <==> message == NoQuestions
    ensures r.status == 404 ==> r.code == "NO_DATA" && r.message == "No questions available for analysis"
    ensures r.status != 404 ==> r == Internal(message, "Failed to generate popular topic insight")
  {
    if message == NoQuestions then Error(404, "NO_DATA", "No questions available for analysis")
    else Internal(message, "Failed to generate popular topic insight")
  }

  /** After a miss: compute, then cache for five minutes. */
  function Compute(env: Env): Outcome {
    var p := PopularInsight(env.services);
    var calls := [CacheGet(PopularKey)] + p.calls;
    match p.result
    case Failure(e) => Outcome(Failed(e), calls)
    case Success(popular) =>
      var calls := calls + [CacheSet(PopularKey, PopularTtl, env.encode(popular))];
      match env.cacheSet(PopularKey, PopularTtl, env.encode(popular))
      case Failure(e) => Outcome(Failed(e), calls)
      case Success(_) => Outcome(Ok(Topic(popular)), calls)
  }

  function PopularRoute(env: Env): Outcome {
    match env.cacheGet(PopularKey)
    case Failure(e) => Outcome(Failed(e), [CacheGet(PopularKey)])
    case Success(cached) =>
      if IsHit(cached) then
        match env.decode(cached.value)
        case Failure(e) => Outcome(Failed(e), [CacheGet(PopularKey)])
        case Success(v) => Outcome(Ok(Stored(v)), [CacheGet(PopularKey)])
      else Compute(env)
  }

  /** A cached topic is sent as parsed and nothing is recomputed. */
  lemma PopularCacheHit(env: Env)
    requires env.cacheGet(PopularKey).Success? && IsHit(env.cacheGet(PopularKey).value)
    requires env.decode(env.cacheGet(PopularKey).value.value).Success?
    ensures PopularRoute(env)
         == Outcome(Ok(Stored(env.decode(env.cacheGet(PopularKey).value.value).value)), [CacheGet(PopularKey)])
  {
  }

  /** A computed topic is the flow's result, and it was cached for 300
      seconds as the last call. */
  lemma PopularMissCaches(env: Env)
    requires env.cacheGet(PopularKey).Success? && !IsHit(env.cacheGet(PopularKey).value)
    requires PopularRoute(env).response.Ok?
    ensures var o := PopularRoute(env);
      var p := PopularInsight(env.services);
      p.result.Success?
      && o.response == Ok(Topic(p.result.value))
      && o.calls[|o.calls| - 1] == CacheSet("popular:topic:latest", 300, env.encode(p.result.value))
  {
    assert PopularRoute(env) == Compute(env);
  }

  /** No questions in the history: a 404 after the lookups, with nothing
      generated and nothing cached. */
  lemma PopularNoData(env: Env)
    requires env.cacheGet(PopularKey).Success? && !IsHit(env.cacheGet(PopularKey).value)
    requires env.services.topQuestions(10) == Success([])
    ensures PopularRoute(env)
         == Outcome(Error(404, "NO_DATA", "No questions available for analysis"),
                    [CacheGet("popular:topic:latest"), FetchTopQuestions(10)])
    ensures NoGeneration(PopularRoute(env).calls) && NoWrites(PopularRoute(env).calls)
  {
    PopularNoQuestions(env.services);
    assert PopularRoute(env) == Compute(env);
    var calls := [CacheGet(PopularKey), FetchTopQuestions(10)];
    assert PopularRoute(env).calls == calls;
    assert forall i | 0 <= i < |calls| :: calls[i].CacheGet? || calls[i].FetchTopQuestions?;
  }

  /** Every failure is a 404 NO_DATA or a 500 INTERNAL. */
  lemma PopularErrors(env: Env)
    ensures var r := PopularRoute(env).response;
      r.Error? ==> (r.status == 404 && r.code == "NO_DATA") || (r.status == 500 && r.code == "INTERNAL")
  {
  }
}
