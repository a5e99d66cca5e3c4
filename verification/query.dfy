/** The question-answering route of the newer service: cache-key
    derivation and the decision sequence of one request. */
module QueryRoute {
  import opened Wrappers
  import opened Strings
  import opened Seqs
  import opened Records
  import opened Json
  import opened Validation
  import opened Retrieval
  import opened Context
  import opened Prompt
  import opened Analytics
  import opened Responses

  // ---------------------------------------------------------------------
  // Cache key

  /** The paper-id part: the ids in character order joined by commas, or
      `*` when no list was given (an empty list gives the empty text). */
  function IdsPart(paperIds: Option<seq<string>>): string {
    if paperIds.None? then "*" else Join(LexSort(paperIds.value), ",")
  }

  /** The text that is hashed: `normalized|topK|ids`. */
  function CacheInput(question: string, topK: int, paperIds: Option<seq<string>>): string {
    NormalizeQuestion(Some(question)) + "|" + IntToString(topK) + "|" + IdsPart(paperIds)
  }

  /** `generateCacheKey`: the prefix and the first 16 characters of the hex
      SHA-256 digest (`sha256Hex`) of the cache input. */
  function CacheKey(question: string, topK: int, paperIds: Option<seq<string>>,
                    sha256Hex: string -> string): (key: string)
    ensures StartsWith(key, "query:ret:")
    ensures |key| == 10 + Min(|sha256Hex(CacheInput(question, topK, paperIds))|, 16)
  {
    var key := "query:ret:" + Take(sha256Hex(CacheInput(question, topK, paperIds)), 16);
    assert key[..10] == "query:ret:";
    key
  }

  /** Questions with the same normalisation share their key. */
  lemma CacheKeyNormalized(q1: string, q2: string, topK: int, paperIds: Option<seq<string>>,
                           sha256Hex: string -> string)
    requires NormalizeQuestion(Some(q1)) == NormalizeQuestion(Some(q2))
    ensures CacheKey(q1, topK, paperIds, sha256Hex) == CacheKey(q2, topK, paperIds, sha256Hex)
  {
  }

  /** Reordering the paper ids does not change the key. */
  lemma CacheKeyPermutation(question: string, topK: int, a: seq<string>, b: seq<string>,
                            sha256Hex: string -> string)
    requires multiset(a) == multiset(b)
    ensures CacheKey(question, topK, Some(a), sha256Hex) == CacheKey(question, topK, Some(b), sha256Hex)
  {
    LexSortPermutation(a, b);
  }

  /** The text hashed for an absent id list differs from the one for an
      empty list: `*` against nothing. */
  lemma CacheInputAbsentVsEmpty(question: string, topK: int)
    ensures CacheInput(question, topK, None) != CacheInput(question, topK, Some([]))
  {
    assert IdsPart(Some([])) == "";
    assert |CacheInput(question, topK, None)| == |CacheInput(question, topK, Some([]))| + 1;
  }

  // ---------------------------------------------------------------------
  // The request

  /** The times `Date.now()` returns: around retrieval (`t0`, `t1`), around
      generation (`t2`, `t3`), and when the history record is made. */
  datatype Clock = Clock(t0: int, t1: int, t2: int, t3: int, createdAt: int)

  /** Everything outside the handler. `cacheGet` yields the stored text or
      nothing; `decode` and `encode` are `JSON.parse` and
      `JSON.stringify`; `chunks` is the chunk store as the context builder
      reads it; `testMode` is `NODE_ENV === 'test'`. */
  datatype Env = Env(
    cacheGet: string -> Result<Option<string>>,
    cacheSet: (string, int, string) -> Result<()>,
    decode: string -> Result<Json>,
    encode: Answer -> string,
    sha256Hex: string -> string,
    embed: string -> Result<seq<real>>,
    search: SearchRequest -> Result<seq<Hit>>,
    chunks: Result<seq<Chunk>>,
    testMode: bool,
    generate: string -> Result<string>,
    saveHistory: HistoryRecord -> Result<()>,
    clock: Clock)

  const TestAnswer := "Test answer with citations."

  const Fallback := "query failed"

  function TopKOf(q: Query): int {
    q.topK.GetOr(5)
  }

  function KeyOf(q: Query, env: Env): string {
    CacheKey(q.question, TopKOf(q), q.paperIds, env.sha256Hex)
  }

  /** Retrieval followed by the route's own re-rank: every score ends up
      weighted twice. */
  function Reranked(q: Query, env: Env): Result<seq<Hit>> {
    var retrieved :- RetrieveFromIndex(q.question, TopKOf(q), q.paperIds, env.embed, env.search);
    Success(Rerank(retrieved, TopKOf(q)))
  }

  function SourceOf(h: Hit): TopSource {
    TopSource(h.payload.paperId, h.payload.section, h.payload.page, h.score)
  }

  function TopSources(hits: seq<Hit>): (r: seq<TopSource>)
    ensures |r| == Min(|hits|, 5)
    ensures forall i | 0 <= i < |r| :: r[i] == SourceOf(hits[i])
  {
    var top := Take(hits, 5);
    seq(|top|, i requires 0 <= i < |top| => SourceOf(top[i]))
  }

  function HistoryOf(q: Query, env: Env, reranked: seq<Hit>, a: Answer): HistoryRecord {
    var c := env.clock;
    HistoryRecord(q.question, NormalizeQuestion(Some(q.question)), q.paperIds, a.answer,
      c.t1 - c.t0, c.t3 - c.t2, (c.t1 - c.t0) + (c.t3 - c.t2),
      TopSources(reranked), a.citations, a.sourcesUsed, a.confidence, c.createdAt)
  }

  /** Generation, caching and the best-effort history write, once the
      context is known to be non-empty. */
  function Grounded(q: Query, env: Env, key: string, reranked: seq<Hit>, built: Built, calls: seq<Call>)
    : Outcome
  {
    var prompt := AssemblePrompt(q.question, built.items);
    var generated := if env.testMode then Success(TestAnswer) else env.generate(prompt);
    var calls := if env.testMode then calls else calls + [Generate(prompt)];
    if generated.Failure? then Outcome(Internal(generated.error, Fallback), calls)
    else
      var a := Answer(generated.value, built.citations, built.sourcesUsed,
        ClampConfidence(TopScore(reranked)));
      var calls := calls + [CacheSet(key, 60, env.encode(a))];
      match env.cacheSet(key, 60, env.encode(a))
      case Failure(e) => Outcome(Internal(e, Fallback), calls)
      case Success(_) =>
        // the outcome of the history write is ignored
        Outcome(Ok(Fresh(a)), calls + [SaveHistory(HistoryOf(q, env, reranked, a))])
  }

  /** Everything after a cache miss. */
  function Answering(q: Query, env: Env, key: string): Outcome {
    var calls := [CacheGet(key), Retrieve(q.question, TopKOf(q) as real, q.paperIds)];
    match Reranked(q, env)
    case Failure(e) => Outcome(Internal(e, Fallback), calls)
    case Success(reranked) =>
      var calls := [CacheGet(key), Retrieve(q.question, TopKOf(q) as real, q.paperIds), LoadChunks];
      match env.chunks
      case Failure(e) => Outcome(Internal(e, Fallback), calls)
      case Success(chunks) =>
        var built := BuildContext(reranked, chunks, DefaultMaxChars);
        if |built.items| == 0 then Outcome(Ok(Fresh(Uncertain)), calls)
        else Grounded(q, env, key, reranked, built, calls)
  }

  /** A validated request: the cache first, then answering. */
  function Serve(q: Query, env: Env): Outcome {
    var key := KeyOf(q, env);
    match env.cacheGet(key)
    case Failure(e) => Outcome(Internal(e, Fallback), [CacheGet(key)])
    case Success(cached) =>
      if IsHit(cached) then
        match env.decode(cached.value)
        case Failure(e) => Outcome(Internal(e, Fallback), [CacheGet(key)])
        case Success(v) => Outcome(Ok(Stored(v)), [CacheGet(key)])
      else Answering(q, env, key)
  }

  /** `POST /query` */
  function Handle(body: Json, env: Env): Outcome {
    match ParseQuery(body)
    case Failure(e) => Outcome(Error(400, "VALIDATION_ERROR", e), [])
    case Success(q) => Serve(q, env)
  }

  // ---------------------------------------------------------------------
  // What a request does

  /** The history record adds up the two timings, keeps at most five
      sources and records the normalised question and the confidence sent. */
  lemma HistoryRecordShape(q: Query, env: Env, reranked: seq<Hit>, a: Answer)
    ensures var rec := HistoryOf(q, env, reranked, a);
      rec.totalTimeMs == rec.retrievalTimeMs + rec.genTimeMs
      && |rec.topSources| <= 5
      && rec.normalizedQuestion == NormalizeQuestion(Some(q.question))
      && rec.confidence == a.confidence
  {
  }

  /** After generation: a failure is a 500; a success is a fresh answer with
      clamped confidence, written to the cache for 60 seconds and then to the
      history. */
  lemma GroundedSpec(q: Query, env: Env, key: string, reranked: seq<Hit>, built: Built, calls: seq<Call>)
    ensures var o := Grounded(q, env, key, reranked, built, calls);
      (o.response.Error? ==> o.response.status == 500 && o.response.code == "INTERNAL")
      && (o.response.Ok? ==>
            o.response.body.Fresh?
            && 0.2 <= o.response.body.answer.confidence <= 0.99
            && |o.calls| >= 2
            && o.calls[|o.calls| - 2] == CacheSet(key, 60, env.encode(o.response.body.answer))
            && o.calls[|o.calls| - 1] == SaveHistory(HistoryOf(q, env, reranked, o.response.body.answer)))
  {
  }

  lemma GroundedIgnoresHistory(q: Query, env: Env, key: string, reranked: seq<Hit>, built: Built,
                               calls: seq<Call>, save: HistoryRecord -> Result<()>)
    ensures Grounded(q, env, key, reranked, built, calls).response
         == Grounded(q, env.(saveHistory := save), key, reranked, built, calls).response
  {
  }

  /** The context built for a request that missed the cache, if the
      retrieval and the chunk store answered. */
  function ContextOf(q: Query, env: Env): Result<Built> {
    var reranked :- Reranked(q, env);
    var chunks :- env.chunks;
    Success(BuildContext(reranked, chunks, DefaultMaxChars))
  }

  /** After a miss, a failing retrieval or chunk store is a 500. */
  lemma AnsweringFails(q: Query, env: Env, key: string)
    requires ContextOf(q, env).Failure?
    ensures Answering(q, env, key).response == Internal(ContextOf(q, env).error, Fallback)
  {
  }

  /** After a miss, an empty context gives the fixed uncertain answer with
      nothing generated and nothing written. */
  lemma AnsweringUncertain(q: Query, env: Env, key: string)
    requires ContextOf(q, env).Success? && |ContextOf(q, env).value.items| == 0
    ensures Answering(q, env, key)
         == Outcome(Ok(Fresh(Uncertain)), [CacheGet(key), Retrieve(q.question, TopKOf(q) as real, q.paperIds), LoadChunks])
  {
  }

  /** After a miss, a non-empty context goes on to generation. */
  lemma AnsweringGrounded(q: Query, env: Env, key: string)
    requires ContextOf(q, env).Success? && |ContextOf(q, env).value.items| > 0
    ensures Answering(q, env, key)
         == Grounded(q, env, key, Reranked(q, env).value, ContextOf(q, env).value,
                     [CacheGet(key), Retrieve(q.question, TopKOf(q) as real, q.paperIds), LoadChunks])
  {
    var rr := Reranked(q, env).value;
    var built := BuildContext(rr, env.chunks.value, DefaultMaxChars);
    assert ContextOf(q, env).value == built;
  }

  lemma AnsweringIgnoresHistory(q: Query, env: Env, key: string, save: HistoryRecord -> Result<()>)
    ensures Answering(q, env, key).response == Answering(q, env.(saveHistory := save), key).response
  {
    var env' := env.(saveHistory := save);
    assert Reranked(q, env') == Reranked(q, env);
    assert ContextOf(q, env') == ContextOf(q, env);
    if ContextOf(q, env).Failure? {
      AnsweringFails(q, env, key);
      AnsweringFails(q, env', key);
    } else if |ContextOf(q, env).value.items| == 0 {
      AnsweringUncertain(q, env, key);
      AnsweringUncertain(q, env', key);
    } else {
      AnsweringGrounded(q, env, key);
      AnsweringGrounded(q, env', key);
      GroundedIgnoresHistory(q, env, key, Reranked(q, env).value, ContextOf(q, env).value,
        [CacheGet(key), Retrieve(q.question, TopKOf(q) as real, q.paperIds), LoadChunks], save);
    }
  }

  /** A valid body is served; a cache miss goes on to answering. */
  lemma HandleMiss(body: Json, env: Env)
    requires ParseQuery(body).Success?
    requires var q := ParseQuery(body).value;
      env.cacheGet(KeyOf(q, env)).Success? && !IsHit(env.cacheGet(KeyOf(q, env)).value)
    ensures var q := ParseQuery(body).value;
      Handle(body, env) == Answering(q, env, KeyOf(q, env))
  {
  }

  /** A body the schema refuses is answered 400 without any call. */
  lemma InvalidBodyRejected(body: Json, env: Env)
    requires ParseQuery(body).Failure?
    ensures Handle(body, env) == Outcome(Error(400, "VALIDATION_ERROR", ParseQuery(body).error), [])
  {
  }

  /** On a cache hit the stored payload is returned as parsed, and nothing
      but the cache lookup happens. */
  lemma CacheHitShortCircuits(body: Json, env: Env)
    requires ParseQuery(body).Success?
    requires var key := KeyOf(ParseQuery(body).value, env);
      env.cacheGet(key).Success? && IsHit(env.cacheGet(key).value)
    ensures var key := KeyOf(ParseQuery(body).value, env);
      var stored := env.cacheGet(key).value.value;
      Handle(body, env).calls == [CacheGet(key)]
      && (env.decode(stored).Success? ==> Handle(body, env).response == Ok(Stored(env.decode(stored).value)))
  {
  }

  lemma MissLookups(key: string, question: string, topK: real, ids: Option<seq<string>>)
    ensures var calls := [CacheGet(key), Retrieve(question, topK, ids), LoadChunks];
      NoGeneration(calls) && NoWrites(calls)
  {
    var calls := [CacheGet(key), Retrieve(question, topK, ids), LoadChunks];
    LookupsOnly(calls);
  }

  lemma LookupsOnly(calls: seq<Call>)
    requires forall i | 0 <= i < |calls| :: calls[i].CacheGet? || calls[i].Retrieve? || calls[i].LoadChunks?
    ensures NoGeneration(calls) && NoWrites(calls)
  {
  }

  /** With an empty context nothing is generated and nothing is written to
      the cache or the history. */
  lemma EmptyContextGuardrail(body: Json, env: Env)
    requires ParseQuery(body).Success?
    requires var q := ParseQuery(body).value;
      env.cacheGet(KeyOf(q, env)).Success? && !IsHit(env.cacheGet(KeyOf(q, env)).value)
      && ContextOf(q, env).Success? && |ContextOf(q, env).value.items| == 0
    ensures NoGeneration(Handle(body, env).calls) && NoWrites(Handle(body, env).calls)
  {
    var q := ParseQuery(body).value;
    EmptyContextOutcome(body, env);
    MissLookups(KeyOf(q, env), q.question, TopKOf(q) as real, q.paperIds);
  }

  /** With an empty context the fixed uncertain answer (confidence 0.2, no
      citations, no sources) is returned after the three lookups. */
  lemma EmptyContextOutcome(body: Json, env: Env)
    requires ParseQuery(body).Success?
    requires var q := ParseQuery(body).value;
      env.cacheGet(KeyOf(q, env)).Success? && !IsHit(env.cacheGet(KeyOf(q, env)).value)
      && ContextOf(q, env).Success? && |ContextOf(q, env).value.items| == 0
    ensures var q := ParseQuery(body).value;
      Handle(body, env) == Outcome(Ok(Fresh(Uncertain)),
                                   [CacheGet(KeyOf(q, env)), Retrieve(q.question, TopKOf(q) as real, q.paperIds), LoadChunks])
    ensures Uncertain.confidence == 0.2 && Uncertain.citations == [] && Uncertain.sourcesUsed == []
  {
    var q := ParseQuery(body).value;
    HandleMiss(body, env);
    AnsweringUncertain(q, env, KeyOf(q, env));
  }

  /** A grounded answer has its confidence clamped into [0.2, 0.99], is
      cached for 60 seconds under the request's key, and is then recorded
      in the history. */
  lemma GroundedAnswer(body: Json, env: Env)
    requires ParseQuery(body).Success?
    requires var q := ParseQuery(body).value;
      env.cacheGet(KeyOf(q, env)).Success? && !IsHit(env.cacheGet(KeyOf(q, env)).value)
      && ContextOf(q, env).Success? && |ContextOf(q, env).value.items| > 0
      && Handle(body, env).response.Ok?
    ensures var q := ParseQuery(body).value;
      var o := Handle(body, env);
      o.response.body.Fresh?
      && var a := o.response.body.answer;
      0.2 <= a.confidence <= 0.99
      && |o.calls| >= 2
      && o.calls[|o.calls| - 2] == CacheSet(KeyOf(q, env), 60, env.encode(a))
      && o.calls[|o.calls| - 1] == SaveHistory(HistoryOf(q, env, Reranked(q, env).value, a))
  {
    var q := ParseQuery(body).value;
    var key := KeyOf(q, env);
    HandleMiss(body, env);
    AnsweringGrounded(q, env, key);
    GroundedSpec(q, env, key, Reranked(q, env).value, ContextOf(q, env).value,
      [CacheGet(key), Retrieve(q.question, TopKOf(q) as real, q.paperIds), LoadChunks]);
  }

  /** The history write cannot change the reply: two environments that
      differ only in how the write turns out give the same response. */
  lemma HistoryIsBestEffort(body: Json, env: Env, save: HistoryRecord -> Result<()>)
    ensures Handle(body, env).response == Handle(body, env.(saveHistory := save)).response
  {
    if ParseQuery(body).Success? {
      var q := ParseQuery(body).value;
      AnsweringIgnoresHistory(q, env, KeyOf(q, env), save);
    }
  }

  /** Failures map to 400 only for a refused body and to 500 otherwise. */
  lemma ErrorStatuses(body: Json, env: Env)
    ensures var r := Handle(body, env).response;
      r.Error? ==>
        (r.status == 400 && r.code == "VALIDATION_ERROR" && ParseQuery(body).Failure?)
        || (r.status == 500 && r.code == "INTERNAL" && ParseQuery(body).Success?)
  {
    if ParseQuery(body).Success? {
      var q := ParseQuery(body).value;
      var key := KeyOf(q, env);
      if env.cacheGet(key).Failure? || IsHit(env.cacheGet(key).value) {
        return;
      }
      HandleMiss(body, env);
      if ContextOf(q, env).Failure? {
        AnsweringFails(q, env, key);
      } else if |ContextOf(q, env).value.items| == 0 {
        AnsweringUncertain(q, env, key);
      } else {
        AnsweringGrounded(q, env, key);
        GroundedSpec(q, env, key, Reranked(q, env).value, ContextOf(q, env).value,
          [CacheGet(key), Retrieve(q.question, TopKOf(q) as real, q.paperIds), LoadChunks]);
      }
    }
  }
}
