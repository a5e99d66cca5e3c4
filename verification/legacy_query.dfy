/** The question-answering route of the older service: the loosely checked
    request, the readable (unhashed, unsorted) cache key and the decision
    sequence of one request. It has no history record. */
module LegacyQueryRoute {
  import opened Wrappers
  import opened Strings
  import opened Records
  import opened Json
  import opened Context
  import opened Prompt
  import opened Responses

  // ---------------------------------------------------------------------
  // The request

  /** The question, when `body.question` is a non-empty string. */
  function QuestionOf(body: Json): (r: Option<string>)
    ensures r.Some? <==> Field(body, "question").Some? && Field(body, "question").value.JStr?
                         && Field(body, "question").value.s != ""
    ensures r.Some? ==> Field(body, "question") == Some(JStr(r.value))
  {
    match Field(body, "question")
    case Some(JStr(s)) => if s != "" then Some(s) else None
    case _ => None
  }

  /** `Math.max(1, Math.min(Number(top_k) || 5, 10))` with `top_k = 5` when
      absent; `Number` giving NaN or 0 falls back to 5. */
  function TopKOf(body: Json): (k: real)
    ensures 1.0 <= k <= 10.0
    ensures Field(body, "top_k").None? ==> k == 5.0
    ensures Field(body, "top_k").Some? && JsNumber(Field(body, "top_k").value).None? ==> k == 5.0
    ensures (Field(body, "top_k").Some? && JsNumber(Field(body, "top_k").value).Some?
             ==> var n := JsNumber(Field(body, "top_k").value).value;
                 (n == 0.0 ==> k == 5.0)
                 && (n != 0.0 && n < 1.0 ==> k == 1.0)
                 && (1.0 <= n <= 10.0 ==> k == n)
                 && (n > 10.0 ==> k == 10.0))
  {
    var n := match Field(body, "top_k")
      case None => Some(5.0)
      case Some(v) => JsNumber(v);
    var v := if n.None? || n.value == 0.0 then 5.0 else n.value;
    RMax(1.0, RMin(v, 10.0))
  }

  /** `Array.isArray(paper_ids) ? paper_ids.map(String) : undefined`. */
  function PaperIdsOf(body: Json, fractionText: real -> string): (r: Option<seq<string>>)
    ensures r.Some? <==> Field(body, "paper_ids").Some? && Field(body, "paper_ids").value.JArr?
    ensures r.Some? ==> |r.value| == |Field(body, "paper_ids").value.items|
                        && forall i | 0 <= i < |r.value| ::
                             r.value[i] == JsString(Field(body, "paper_ids").value.items[i], fractionText)
  {
    match Field(body, "paper_ids")
    case Some(JArr(items)) => Some(seq(|items|, i requires 0 <= i < |items| => JsString(items[i], fractionText)))
    case _ => None
  }

  // ---------------------------------------------------------------------
  // Cache key

  /** The ids joined by commas in the order given, or `*` without a list. */
  function IdsPart(paperIds: Option<seq<string>>): string {
    if paperIds.None? then "*" else Join(paperIds.value, ",")
  }

  /** `query:ret:<trimmed lower-cased question>:<topK>`. */
  function KeyHead(question: string, topK: real, fractionText: real -> string): string {
    "query:ret:" + Lower(JsTrim(question)) + ":" + NumberToString(topK, fractionText)
  }

  /** `query:ret:<trimmed lower-cased question>:<topK>:<ids>`, unhashed. */
  function CacheKey(question: string, topK: real, paperIds: Option<seq<string>>,
                    fractionText: real -> string): (key: string)
    ensures StartsWith(key, "query:ret:")
    ensures EndsWith(key, ":" + IdsPart(paperIds))
  {
    var head := KeyHead(question, topK, fractionText);
    var tail := ":" + IdsPart(paperIds);
    var key := head + tail;
    assert key[..10] == head[..10] == "query:ret:";
    assert key[|key| - |tail|..] == tail;
    key
  }

  /** Questions equal after trimming and lower-casing share their key;
      inner whitespace runs are not collapsed. */
  lemma CacheKeyCaseInsensitive(q1: string, q2: string, topK: real, paperIds: Option<seq<string>>,
                                fractionText: real -> string)
    requires Lower(JsTrim(q1)) == Lower(JsTrim(q2))
    ensures CacheKey(q1, topK, paperIds, fractionText) == CacheKey(q2, topK, paperIds, fractionText)
  {
  }

  lemma JoinPair(x: string, y: string, sep: string)
    ensures Join([x, y], sep) == x + (sep + y)
  {
    assert [x, y][1..] == [y];
    assert x + sep + y == x + (sep + y);
  }

  /** The ids are not sorted: swapping two different ids of the same length
      gives a different key, so the same request in another order misses
      the cache. */
  lemma CacheKeyOrderSensitive(question: string, topK: real, x: string, y: string,
                               fractionText: real -> string)
    requires |x| == |y| && x != y
    ensures CacheKey(question, topK, Some([x, y]), fractionText)
         != CacheKey(question, topK, Some([y, x]), fractionText)
  {
    var head := KeyHead(question, topK, fractionText);
    CacheKeySplit(question, topK, Some([x, y]), fractionText);
    CacheKeySplit(question, topK, Some([y, x]), fractionText);
    JoinPair(x, y, ",");
    JoinPair(y, x, ",");
    AfterColon(head, x, "," + y);
    AfterColon(head, y, "," + x);
  }

  lemma CacheKeySplit(question: string, topK: real, paperIds: Option<seq<string>>, fractionText: real -> string)
    ensures CacheKey(question, topK, paperIds, fractionText)
         == KeyHead(question, topK, fractionText) + (":" + IdsPart(paperIds))
  {
  }

  lemma AfterColon(head: string, x: string, rest: string)
    ensures (head + (":" + (x + rest)))[|head| + 1..|head| + 1 + |x|] == x
  {
    var s := head + (":" + (x + rest));
    forall i | 0 <= i < |x|
      ensures s[|head| + 1 + i] == x[i]
    {
    }
  }

  /** An absent id list gives `*`; an empty list gives nothing. */
  lemma CacheKeyAbsentVsEmpty(question: string, topK: real, fractionText: real -> string)
    ensures CacheKey(question, topK, None, fractionText) != CacheKey(question, topK, Some([]), fractionText)
  {
    assert IdsPart(Some([])) == "";
    assert |CacheKey(question, topK, None, fractionText)| == |CacheKey(question, topK, Some([]), fractionText)| + 1;
  }

  // ---------------------------------------------------------------------
  // The request

  /** Everything outside the handler. `retrieve` and `rerank` are the older
      service's index search and re-rank, whose source is not part of this
      model; `fractionText` is how a non-integral `topK` prints. */
  datatype Env = Env(
    cacheGet: string -> Result<Option<string>>,
    cacheSet: (string, int, string) -> Result<()>,
    decode: string -> Result<Json>,
    encode: Answer -> string,
    fractionText: real -> string,
    retrieve: (string, real, Option<seq<string>>) -> Result<seq<Hit>>,
    rerank: (seq<Hit>, real) -> seq<Hit>,
    chunks: Result<seq<Chunk>>,
    testMode: bool,
    generate: string -> Result<string>)

  const TestAnswer := "Test answer with citations."

  const Fallback := "query failed"

  /** The fields a request with a question is served with. */
  datatype Request = Request(question: string, topK: real, paperIds: Option<seq<string>>, key: string)

  function RequestOf(question: string, body: Json, env: Env): (r: Request)
    ensures r.key == CacheKey(question, r.topK, r.paperIds, env.fractionText)
  {
    var topK := TopKOf(body);
    var ids := PaperIdsOf(body, env.fractionText);
    Request(question, topK, ids, CacheKey(question, topK, ids, env.fractionText))
  }

  /** The calls made by a miss up to the context. */
  function MissCalls(r: Request): seq<Call> {
    [CacheGet(r.key), Retrieve(r.question, r.topK, r.paperIds), LoadChunks]
  }

  /** Generation and the cache write, once the context is known to be
      non-empty. */
  function Grounded(r: Request, env: Env, reranked: seq<Hit>, built: Built): Outcome {
    Generating(r, env, reranked, built, AssemblePrompt(r.question, built.items))
  }

  /** Generation from `prompt`, then the cache write. */
  function Generating(r: Request, env: Env, reranked: seq<Hit>, built: Built, prompt: string): Outcome {
    var generated := if env.testMode then Success(TestAnswer) else env.generate(prompt);
    var calls := if env.testMode then MissCalls(r) else MissCalls(r) + [Generate(prompt)];
    if generated.Failure? then Outcome(Internal(generated.error, Fallback), calls)
    else
      var a := Answer(generated.value, built.citations, built.sourcesUsed,
        ClampConfidence(TopScore(reranked)));
      var calls := calls + [CacheSet(r.key, 60, env.encode(a))];
      match env.cacheSet(r.key, 60, env.encode(a))
      case Failure(e) => Outcome(Internal(e, Fallback), calls)
      case Success(_) => Outcome(Ok(Fresh(a)), calls)
  }

  /** What a built context leads to: the fixed uncertain answer when it is
      empty, generation otherwise. */
  function Respond(r: Request, env: Env, reranked: seq<Hit>, built: Built): Outcome {
    if |built.items| == 0 then Outcome(Ok(Fresh(Uncertain)), MissCalls(r))
    else Grounded(r, env, reranked, built)
  }

  /** The re-ranked hits, if the index answered. */
  function Reranked(r: Request, env: Env): Result<seq<Hit>> {
    var retrieved :- env.retrieve(r.question, r.topK, r.paperIds);
    Success(env.rerank(retrieved, r.topK))
  }

  /** The context of a request that missed the cache, if the index and the
      chunk store answered. */
  function ContextOf(r: Request, env: Env): Result<Built> {
    var reranked :- Reranked(r, env);
    var chunks :- env.chunks;
    Success(BuildContext(reranked, chunks, DefaultMaxChars))
  }

  /** Everything after a cache miss. */
  function Answering(r: Request, env: Env): Outcome {
    match Reranked(r, env)
    case Failure(e) => Outcome(Internal(e, Fallback), [CacheGet(r.key), Retrieve(r.question, r.topK, r.paperIds)])
    case Success(reranked) =>
      match env.chunks
      case Failure(e) => Outcome(Internal(e, Fallback), MissCalls(r))
      case Success(chunks) =>
        Respond(r, env, reranked, BuildContext(reranked, chunks, DefaultMaxChars))
  }

  /** A request with a question: the cache first, then answering. */
  function Serve(r: Request, env: Env): Outcome {
    match env.cacheGet(r.key)
    case Failure(e) => Outcome(Internal(e, Fallback), [CacheGet(r.key)])
    case Success(cached) =>
      if IsHit(cached) then
        match env.decode(cached.value)
        case Failure(e) => Outcome(Internal(e, Fallback), [CacheGet(r.key)])
        case Success(v) => Outcome(Ok(Stored(v)), [CacheGet(r.key)])
      else Answering(r, env)
  }

  /** `POST /query` of the older service. */
  function Handle(body: Json, env: Env): Outcome {
    match QuestionOf(body)
    case None => Outcome(Error(400, "BAD_REQUEST", "question is required"), [])
    case Some(question) => Serve(RequestOf(question, body, env), env)
  }

  // ---------------------------------------------------------------------
  // What a request does

  predicate NoHistory(calls: seq<Call>) {
    forall i | 0 <= i < |calls| :: !calls[i].SaveHistory?
  }

  /** After generation: a failure is a 500; a success is the answer with
      clamped confidence, written to the cache for 60 seconds as the last
      call. */
  lemma GroundedSpec(r: Request, env: Env, reranked: seq<Hit>, built: Built)
    ensures var o := Grounded(r, env, reranked, built);
      (o.response.Error? ==> o.response.status == 500 && o.response.code == "INTERNAL")
      && (o.response.Ok? ==>
            o.response.body == Fresh(o.response.body.answer)
            && o.response.body.answer.confidence == ClampConfidence(TopScore(reranked))
            && o.response.body.answer.citations == built.citations
            && o.response.body.answer.sourcesUsed == built.sourcesUsed
            && |o.calls| >= 1
            && o.calls[|o.calls| - 1] == CacheSet(r.key, 60, env.encode(o.response.body.answer)))
  {
    GeneratingSpec(r, env, reranked, built, AssemblePrompt(r.question, built.items));
  }

  lemma GeneratingSpec(r: Request, env: Env, reranked: seq<Hit>, built: Built, prompt: string)
    ensures var o := Generating(r, env, reranked, built, prompt);
      (o.response.Error? ==> o.response.status == 500 && o.response.code == "INTERNAL")
      && (o.response.Ok? ==>
            o.response.body == Fresh(o.response.body.answer)
            && o.response.body.answer.confidence == ClampConfidence(TopScore(reranked))
            && o.response.body.answer.citations == built.citations
            && o.response.body.answer.sourcesUsed == built.sourcesUsed
            && |o.calls| >= 1
            && o.calls[|o.calls| - 1] == CacheSet(r.key, 60, env.encode(o.response.body.answer)))
  {
  }

  lemma NoHistoryAppend(a: seq<Call>, b: seq<Call>)
    requires NoHistory(a) && NoHistory(b)
    ensures NoHistory(a + b)
  {
    forall i | 0 <= i < |a + b|
      ensures !(a + b)[i].SaveHistory?
    {
      if i >= |a| {
        assert (a + b)[i] == b[i - |a|];
      }
    }
  }

  /** Generation writes the cache and nothing else. */
  lemma GroundedNoHistory(r: Request, env: Env, reranked: seq<Hit>, built: Built)
    ensures NoHistory(Grounded(r, env, reranked, built).calls)
  {
    GeneratingNoHistory(r, env, reranked, built, AssemblePrompt(r.question, built.items));
  }

  lemma GeneratingNoHistory(r: Request, env: Env, reranked: seq<Hit>, built: Built, prompt: string)
    ensures NoHistory(Generating(r, env, reranked, built, prompt).calls)
  {
    var base := MissCalls(r);
    assert NoHistory(base);
    var calls := if env.testMode then base else base + [Generate(prompt)];
    NoHistoryAppend(base, [Generate(prompt)]);
    assert NoHistory(calls);
    var generated := if env.testMode then Success(TestAnswer) else env.generate(prompt);
    if generated.Success? {
      var a := Answer(generated.value, built.citations, built.sourcesUsed,
        ClampConfidence(TopScore(reranked)));
      NoHistoryAppend(calls, [CacheSet(r.key, 60, env.encode(a))]);
    }
  }

  /** After a miss, the request is answered. */
  lemma ServeMiss(r: Request, env: Env)
    requires env.cacheGet(r.key).Success? && !IsHit(env.cacheGet(r.key).value)
    ensures Serve(r, env) == Answering(r, env)
  {
  }

  lemma AnsweringFails(r: Request, env: Env)
    requires ContextOf(r, env).Failure?
    ensures Answering(r, env).response == Internal(ContextOf(r, env).error, Fallback)
    ensures NoHistory(Answering(r, env).calls)
  {
  }

  lemma AnsweringUncertain(r: Request, env: Env)
    requires ContextOf(r, env).Success? && |ContextOf(r, env).value.items| == 0
    ensures Answering(r, env) == Outcome(Ok(Fresh(Uncertain)), MissCalls(r))
  {
  }

  lemma AnsweringGrounded(r: Request, env: Env)
    requires ContextOf(r, env).Success? && |ContextOf(r, env).value.items| > 0
    ensures Answering(r, env) == Grounded(r, env, Reranked(r, env).value, ContextOf(r, env).value)
  {
    var built := BuildContext(Reranked(r, env).value, env.chunks.value, DefaultMaxChars);
    assert ContextOf(r, env).value == built;
  }

  /** A request without a usable question is answered 400 without any call,
      and only such a request is answered 400. */
  lemma MissingQuestionRejected(body: Json, env: Env)
    ensures QuestionOf(body).None? ==>
      Handle(body, env) == Outcome(Error(400, "BAD_REQUEST", "question is required"), [])
    ensures QuestionOf(body).Some? && Handle(body, env).response.Error? ==>
      Handle(body, env).response.status == 500 && Handle(body, env).response.code == "INTERNAL"
  {
    if QuestionOf(body).Some? {
      var r := RequestOf(QuestionOf(body).value, body, env);
      if env.cacheGet(r.key).Success? && !IsHit(env.cacheGet(r.key).value) {
        assert Handle(body, env) == Answering(r, env);
        if ContextOf(r, env).Failure? {
          AnsweringFails(r, env);
        } else if |ContextOf(r, env).value.items| == 0 {
          AnsweringUncertain(r, env);
        } else {
          AnsweringGrounded(r, env);
          GroundedSpec(r, env, Reranked(r, env).value, ContextOf(r, env).value);
        }
      }
    }
  }

  /** On a cache hit the stored payload is returned as parsed, and nothing
      but the cache lookup happens. */
  lemma CacheHitShortCircuits(r: Request, env: Env)
    requires env.cacheGet(r.key).Success? && IsHit(env.cacheGet(r.key).value)
    ensures var stored := env.cacheGet(r.key).value.value;
      Serve(r, env).calls == [CacheGet(r.key)]
      && (env.decode(stored).Success? ==> Serve(r, env).response == Ok(Stored(env.decode(stored).value)))
      && (env.decode(stored).Failure? ==> Serve(r, env).response.Error?)
  {
  }

  /** With an empty context the fixed uncertain answer is returned and
      nothing is generated or written. */
  lemma EmptyContextGuardrail(r: Request, env: Env)
    requires env.cacheGet(r.key).Success? && !IsHit(env.cacheGet(r.key).value)
    requires ContextOf(r, env).Success? && |ContextOf(r, env).value.items| == 0
    ensures Serve(r, env).response == Ok(Fresh(Uncertain))
    ensures NoGeneration(Serve(r, env).calls) && NoWrites(Serve(r, env).calls)
  {
    assert Serve(r, env) == Outcome(Ok(Fresh(Uncertain)), MissCalls(r)) by {
      ServeMiss(r, env);
      AnsweringUncertain(r, env);
    }
    MissCallsQuiet(r);
  }

  /** Up to the context nothing is generated, written or recorded. */
  lemma MissCallsQuiet(r: Request)
    ensures NoGeneration(MissCalls(r)) && NoWrites(MissCalls(r)) && NoHistory(MissCalls(r))
  {
    var calls := MissCalls(r);
    assert forall i | 0 <= i < |calls| :: calls[i].CacheGet? || calls[i].Retrieve? || calls[i].LoadChunks?;
  }

  /** A grounded answer has its confidence clamped into [0.2, 0.99] and is
      cached for 60 seconds under the request's key. */
  lemma GroundedAnswer(r: Request, env: Env)
    requires env.cacheGet(r.key).Success? && !IsHit(env.cacheGet(r.key).value)
    requires ContextOf(r, env).Success? && |ContextOf(r, env).value.items| > 0
    requires Serve(r, env).response.Ok?
    ensures var o := Serve(r, env);
      o.response.body.Fresh?
      && 0.2 <= o.response.body.answer.confidence <= 0.99
      && o.response.body.answer.confidence == ClampConfidence(TopScore(Reranked(r, env).value))
      && |o.calls| >= 1
      && o.calls[|o.calls| - 1] == CacheSet(r.key, 60, env.encode(o.response.body.answer))
  {
    var reranked := Reranked(r, env).value;
    var built := ContextOf(r, env).value;
    assert Serve(r, env) == Grounded(r, env, reranked, built) by {
      ServeMiss(r, env);
      AnsweringGrounded(r, env);
    }
    GroundedSpec(r, env, reranked, built);
  }

  /** The older route never writes a history record. */
  lemma NeverRecordsHistory(body: Json, env: Env)
    ensures NoHistory(Handle(body, env).calls)
  {
    if QuestionOf(body).Some? {
      var r := RequestOf(QuestionOf(body).value, body, env);
      ServeNoHistory(r, env);
    }
  }

  lemma ServeNoHistory(r: Request, env: Env)
    ensures NoHistory(Serve(r, env).calls)
  {
    if env.cacheGet(r.key).Success? && !IsHit(env.cacheGet(r.key).value) {
      ServeMiss(r, env);
      AnsweringNoHistory(r, env);
    } else {
      assert Serve(r, env).calls == [CacheGet(r.key)];
    }
  }

  lemma AnsweringNoHistory(r: Request, env: Env)
    ensures NoHistory(Answering(r, env).calls)
  {
    if ContextOf(r, env).Failure? {
      AnsweringFails(r, env);
    } else if |ContextOf(r, env).value.items| == 0 {
      AnsweringUncertain(r, env);
      MissCallsQuiet(r);
    } else {
      AnsweringGrounded(r, env);
      GroundedNoHistory(r, env, Reranked(r, env).value, ContextOf(r, env).value);
    }
  }
}
