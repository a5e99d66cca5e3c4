/** The popular-topic flow of the newer service: the most asked questions
    are summarised into one topic by the language model, and the topic is
    then answered from the papers like a question, with the same empty
    context guardrail and confidence clamp as the query route. */
module PopularTopics {
  import opened Wrappers
  import opened Strings
  import opened Records
  import opened Retrieval
  import opened Context
  import opened Responses

  const NoQuestionsProvided := "No questions provided for summarization"

  const NoQuestions := "No questions found in database"

  const UncertainInsight :=
    "I am uncertain about this topic because no relevant context was found in the research papers."

  /** How many of the most asked questions are summarised, and how many
      hits the topic is answered from. */
  const QuestionCount := 10

  const InsightTopK := 7

  /** A result together with the external calls made to produce it. */
  datatype Step<T> = Step(result: Result<T>, calls: seq<Call>)

  /** The services the flow calls. `topQuestions` is the history store's
      most-asked-questions query, whose source is not part of this model. */
  datatype Services = Services(
    embed: string -> Result<seq<real>>,
    search: SearchRequest -> Result<seq<Hit>>,
    chunks: Result<seq<Chunk>>,
    generate: string -> Result<string>,
    topQuestions: int -> Result<seq<string>>)

  // ---------------------------------------------------------------------
  // Summarising questions into a topic

  /** `1. first`, `2. second`, ... */
  function Numbered(questions: seq<string>): (r: seq<string>)
    ensures |r| == |questions|
  {
    seq(|questions|, i requires 0 <= i < |questions| => IntToString(i + 1) + ". " + questions[i])
  }

  const TopicHeader: seq<string> := [
    "You are analyzing research questions to identify common topics.",
    "Below are the top questions users have been asking:",
    ""]

  const TopicFooter: seq<string> := [
    "",
    "Analyze these questions and identify a single distinct topic or research area that best encompasses them.",
    "Respond with ONLY a concise topic phrase (2-8 words) that captures the main theme.",
    "Do not include explanations, just the topic phrase.",
    "Examples: \"Machine Learning Model Performance\", \"Climate Change Effects\", \"Quantum Computing Applications\"",
    "",
    "Topic:"]

  function TopicLines(questions: seq<string>): seq<string> {
    TopicHeader + Numbered(questions) + TopicFooter
  }

  function TopicPrompt(questions: seq<string>): string {
    Join(TopicLines(questions), "\n")
  }

  /** The topic prompt lists the questions in their order, numbered from 1,
      on the lines after the three header lines, and ends with `Topic:`. */
  lemma TopicPromptNumbered(questions: seq<string>, k: nat)
    requires k < |questions|
    ensures |TopicLines(questions)| == |questions| + 10
    ensures TopicLines(questions)[3 + k] == IntToString(k + 1) + ". " + questions[k]
    ensures Contains(TopicPrompt(questions), IntToString(k + 1) + ". " + questions[k])
    ensures EndsWith(TopicPrompt(questions), "Topic:")
  {
    var lines := TopicLines(questions);
    assert lines[3 + k] == Numbered(questions)[k];
    JoinContains(lines, "\n", 3 + k);
    JoinEnds(lines, "\n");
    assert lines[|lines| - 1] == TopicFooter[6];
  }

  /** `summarizeQuestionsToTopic`: an empty list is refused before the
      model is called; otherwise the model's reply, trimmed. */
  function Summarize(questions: seq<string>, generate: string -> Result<string>): (s: Step<string>)
    ensures |questions| == 0 ==> s == Step(Failure(NoQuestionsProvided), [])
    ensures |questions| > 0 ==> s.calls == [Generate(TopicPrompt(questions))]
                                && (s.result.Success? <==> generate(TopicPrompt(questions)).Success?)
    ensures s.result.Success? ==> NoEdgeSpace(s.result.value, IsJsSpace)
                                  && s.result.value == JsTrim(generate(TopicPrompt(questions)).value)
  {
    if |questions| == 0 then Step(Failure(NoQuestionsProvided), [])
    else
      var prompt := TopicPrompt(questions);
      match generate(prompt)
      case Failure(e) => Step(Failure(e), [Generate(prompt)])
      case Success(topic) => Step(Success(JsTrim(topic)), [Generate(prompt)])
  }

  // ---------------------------------------------------------------------
  // Answering the topic from the papers

  /** `title || 'Unknown'` */
  function TitleLabel(title: Option<string>): (r: string)
    ensures r != ""
    ensures Truthy(title) ==> r == title.value
  {
    if Truthy(title) then title.value else "Unknown"
  }

  /** `page || 'N/A'`: a missing page and page 0 both print `N/A`. */
  function PageLabel(page: Option<int>): (r: string)
    ensures page.None? || page.value == 0 ==> r == "N/A"
  {
    if page.None? || page.value == 0 then "N/A" else IntToString(page.value)
  }

  /** `[Source n: title, section, p.page]` followed by the text, unescaped. */
  function SourceBlock(idx: nat, e: Entry): string {
    "[Source " + IntToString(idx + 1) + ": " + TitleLabel(e.source.paperTitle) + ", "
    + OrEmpty(e.source.section) + ", p." + PageLabel(e.source.page) + "]\n" + e.text
  }

  function SourceBlocks(items: seq<Entry>): (r: seq<string>)
    ensures |r| == |items|
  {
    seq(|items|, i requires 0 <= i < |items| => SourceBlock(i, items[i]))
  }

  /** The instruction lines between the context and the closing request,
      each ended by a line break as `join('\n')` leaves them. */
  const InsightInstructions :=
    "\n"
    + "Using ONLY the provided context from research papers:\n"
    + "1. Provide a comprehensive overview of this topic\n"
    + "2. Highlight key findings, methods, or insights from the research\n"
    + "3. Explain why this topic is significant or what makes it interesting\n"
    + "\n"
    + "Use markdown formatting for readability.\n"
    + "Cite sources explicitly in the form [paper_title, section, page].\n"
    + "If the context does not adequately cover the topic, acknowledge the limitations.\n"
    + "\n"

  /** `<context>` and the context blocks, separated by blank lines. */
  function Opening(items: seq<Entry>): string {
    "<context>\n" + Join(SourceBlocks(items), "\n\n")
  }

  /** The role, the topic and the instructions. */
  function Middle(topic: string): string {
    "\n</context>\n\n"
    + "You are a research assistant named SageAI analyzing popular research topics.\n"
    + "The topic \"" + topic + "\" has been identified as a common area of interest based on user questions.\n"
    + InsightInstructions
  }

  function Closing(topic: string): string {
    "Write an insightful summary about: " + topic
  }

  /** The lines of the insight prompt joined by line breaks: the context
      blocks inside `<context>`, the role, the topic, the instructions and
      the closing request. */
  function InsightPrompt(topic: string, items: seq<Entry>): string {
    Opening(items) + Middle(topic) + Closing(topic)
  }

  lemma ContainsPrefix(a: string, b: string, x: string)
    requires Contains(a, x)
    ensures Contains(a + b, x)
  {
    var i :| 0 <= i <= |a| - |x| && OccursAt(a, x, i);
    assert (a + b)[i..i + |x|] == a[i..i + |x|];
    assert OccursAt(a + b, x, i);
  }

  lemma EndsWithSuffix(a: string, b: string)
    ensures EndsWith(a + b, b)
  {
    assert (a + b)[|a + b| - |b|..] == b;
  }

  lemma StartsWithPrefixOf(a: string, b: string, pre: string)
    requires StartsWith(a, pre)
    ensures StartsWith(a + b, pre)
  {
    assert (a + b)[..|pre|] == a[..|pre|];
  }

  /** Text put in front of and after a piece keeps what the piece
      contains and starts with, and ends with what is put last. */
  lemma FramedText(a: string, b: string, c: string, x: string, pre: string)
    requires Contains(a, x) && StartsWith(a, pre)
    ensures Contains(a + b + c, x)
    ensures StartsWith(a + b + c, pre)
    ensures EndsWith(a + b + c, c)
  {
    ContainsPrefix(a, b, x);
    ContainsPrefix(a + b, c, x);
    StartsWithPrefixOf(a, b, pre);
    StartsWithPrefixOf(a + b, c, pre);
    EndsWithSuffix(a + b, c);
  }

  /** The context part opens with the tag and holds every numbered block. */
  lemma OpeningShape(items: seq<Entry>, k: nat)
    requires k < |items|
    ensures Contains(Opening(items), SourceBlock(k, items[k]))
    ensures StartsWith(Opening(items), "<context>")
  {
    var head := "<context>\n";
    var ctx := Join(SourceBlocks(items), "\n\n");
    assert SourceBlocks(items)[k] == SourceBlock(k, items[k]);
    JoinContains(SourceBlocks(items), "\n\n", k);
    ContainsWithin(head, ctx, "", SourceBlock(k, items[k]));
    assert head + ctx + "" == Opening(items);
    assert StartsWith(head, "<context>");
    StartsWithPrefixOf(head, ctx, "<context>");
  }

  /** The insight prompt carries every context entry, numbered in order,
      and ends by asking about the topic. */
  lemma InsightPromptShape(topic: string, items: seq<Entry>, k: nat)
    requires k < |items|
    ensures Contains(InsightPrompt(topic, items), SourceBlock(k, items[k]))
    ensures StartsWith(InsightPrompt(topic, items), "<context>")
    ensures EndsWith(InsightPrompt(topic, items), Closing(topic))
  {
    OpeningShape(items, k);
    FramedText(Opening(items), Middle(topic), Closing(topic), SourceBlock(k, items[k]), "<context>");
  }

  /** The re-ranked hits of the topic, if the embedder and the index answered. */
  function Reranked(topic: string, topK: int, env: Services): Result<seq<Hit>> {
    var retrieved :- RetrieveFromIndex(topic, topK, None, env.embed, env.search);
    Success(Rerank(retrieved, topK))
  }

  function ContextOf(topic: string, topK: int, env: Services): Result<Built> {
    var reranked :- Reranked(topic, topK, env);
    var chunks :- env.chunks;
    Success(BuildContext(reranked, chunks, DefaultMaxChars))
  }

  function ContextCalls(topic: string, topK: int): seq<Call> {
    [Retrieve(topic, topK as real, None), LoadChunks]
  }

  /** The insight from a non-empty context, asked with `prompt`. */
  function Grounded(topic: string, topK: int, env: Services, reranked: seq<Hit>, built: Built, prompt: string)
    : Step<Insight>
  {
    match env.generate(prompt)
    case Failure(e) => Step(Failure(e), ContextCalls(topic, topK) + [Generate(prompt)])
    case Success(text) =>
      Step(Success(Insight(topic, text, built.citations, built.sourcesUsed, ClampConfidence(TopScore(reranked)))),
           ContextCalls(topic, topK) + [Generate(prompt)])
  }

  /** `generateTopicInsight` */
  function TopicInsight(topic: string, topK: int, env: Services): Step<Insight> {
    match Reranked(topic, topK, env)
    case Failure(e) => Step(Failure(e), [Retrieve(topic, topK as real, None)])
    case Success(reranked) =>
      match env.chunks
      case Failure(e) => Step(Failure(e), ContextCalls(topic, topK))
      case Success(chunks) => Respond(topic, topK, env, reranked, BuildContext(reranked, chunks, DefaultMaxChars))
  }

  /** What a built context leads to: the fixed uncertain insight when it is
      empty, the model's insight otherwise. */
  function Respond(topic: string, topK: int, env: Services, reranked: seq<Hit>, built: Built): Step<Insight> {
    if |built.items| == 0 then
      Step(Success(Insight(topic, UncertainInsight, [], [], 0.2)), ContextCalls(topic, topK))
    else Grounded(topic, topK, env, reranked, built, InsightPrompt(topic, built.items))
  }

  lemma TopicInsightResponds(topic: string, topK: int, env: Services)
    requires ContextOf(topic, topK, env).Success?
    ensures TopicInsight(topic, topK, env)
         == Respond(topic, topK, env, Reranked(topic, topK, env).value, ContextOf(topic, topK, env).value)
  {
    var reranked := Reranked(topic, topK, env).value;
    assert env.chunks.Success?;
    assert ContextOf(topic, topK, env).value == BuildContext(reranked, env.chunks.value, DefaultMaxChars);
  }

  lemma TopicInsightFails(topic: string, topK: int, env: Services)
    requires ContextOf(topic, topK, env).Failure?
    ensures TopicInsight(topic, topK, env).result == Failure(ContextOf(topic, topK, env).error)
    ensures TopicInsight(topic, topK, env).calls
         == if Reranked(topic, topK, env).Failure? then [Retrieve(topic, topK as real, None)]
            else ContextCalls(topic, topK)
  {
  }

  /** With an empty context the topic gets the fixed uncertain insight with
      confidence 0.2 and no citations or sources, and the model is not
      called. */
  lemma TopicInsightUncertain(topic: string, topK: int, env: Services)
    requires ContextOf(topic, topK, env).Success? && |ContextOf(topic, topK, env).value.items| == 0
    ensures TopicInsight(topic, topK, env)
         == Step(Success(Insight(topic, UncertainInsight, [], [], 0.2)), ContextCalls(topic, topK))
    ensures NoGeneration(ContextCalls(topic, topK))
  {
    TopicInsightResponds(topic, topK, env);
  }

  lemma TopicInsightGrounded(topic: string, topK: int, env: Services)
    requires ContextOf(topic, topK, env).Success? && |ContextOf(topic, topK, env).value.items| > 0
    ensures TopicInsight(topic, topK, env)
         == Grounded(topic, topK, env, Reranked(topic, topK, env).value, ContextOf(topic, topK, env).value,
                     InsightPrompt(topic, ContextOf(topic, topK, env).value.items))
  {
    TopicInsightResponds(topic, topK, env);
  }

  /** From a non-empty context the insight is the model's reply on the
      topic prompt, with the context's citations and sources and the top
      score clamped into [0.2, 0.99]. */
  lemma GroundedSpec(topic: string, topK: int, env: Services, reranked: seq<Hit>, built: Built, prompt: string)
    ensures var s := Grounded(topic, topK, env, reranked, built, prompt);
      s.calls == ContextCalls(topic, topK) + [Generate(prompt)]
      && (s.result.Success? <==> env.generate(prompt).Success?)
      && (s.result.Success? ==>
            var i := s.result.value;
            i.topic == topic && i.insight == env.generate(prompt).value
            && i.citations == built.citations && i.sourcesUsed == built.sourcesUsed
            && 0.2 <= i.confidence <= 0.99 && i.confidence == ClampConfidence(TopScore(reranked)))
  {
  }

  // ---------------------------------------------------------------------
  // The whole flow

  /** `getPopularTopicInsight`: the ten most asked questions, their topic,
      and the topic's insight from seven hits. */
  function PopularInsight(env: Services): Step<Popular> {
    var fetch := [FetchTopQuestions(QuestionCount)];
    match env.topQuestions(QuestionCount)
    case Failure(e) => Step(Failure(e), fetch)
    case Success(questions) =>
      if |questions| == 0 then Step(Failure(NoQuestions), fetch)
      else
        var s := Summarize(questions, env.generate);
        if s.result.Failure? then Step(Failure(s.result.error), fetch + s.calls)
        else
          var t := TopicInsight(s.result.value, InsightTopK, env);
          match t.result
          case Failure(e) => Step(Failure(e), fetch + s.calls + t.calls)
          case Success(insight) => Step(Success(Popular(insight, questions)), fetch + s.calls + t.calls)
  }

  /** No questions: the flow fails with `No questions found in database`
      after the one lookup. */
  lemma PopularNoQuestions(env: Services)
    requires env.topQuestions(QuestionCount) == Success([])
    ensures PopularInsight(env) == Step(Failure(NoQuestions), [FetchTopQuestions(10)])
  {
  }

  /** The insight is about the topic asked, and retrieval for it comes first. */
  lemma TopicInsightStarts(topic: string, topK: int, env: Services)
    ensures var t := TopicInsight(topic, topK, env);
      |t.calls| >= 1 && t.calls[0] == Retrieve(topic, topK as real, None)
      && (t.result.Success? ==> t.result.value.topic == topic)
  {
    if ContextOf(topic, topK, env).Failure? {
      TopicInsightFails(topic, topK, env);
    } else if |ContextOf(topic, topK, env).value.items| == 0 {
      TopicInsightUncertain(topic, topK, env);
    } else {
      GroundedStarts(topic, topK, env);
    }
  }

  lemma GroundedStarts(topic: string, topK: int, env: Services)
    requires ContextOf(topic, topK, env).Success? && |ContextOf(topic, topK, env).value.items| > 0
    ensures var t := TopicInsight(topic, topK, env);
      |t.calls| >= 1 && t.calls[0] == Retrieve(topic, topK as real, None)
      && (t.result.Success? ==> t.result.value.topic == topic)
  {
    var rr := Reranked(topic, topK, env).value;
    var built := ContextOf(topic, topK, env).value;
    TopicInsightGrounded(topic, topK, env);
    GroundedFirst(topic, topK, env, rr, built, InsightPrompt(topic, built.items));
  }

  lemma GroundedFirst(topic: string, topK: int, env: Services, reranked: seq<Hit>, built: Built, prompt: string)
    ensures var g := Grounded(topic, topK, env, reranked, built, prompt);
      |g.calls| >= 1 && g.calls[0] == Retrieve(topic, topK as real, None)
      && (g.result.Success? ==> g.result.value.topic == topic)
  {
  }

  /** With questions and a topic, the flow is the insight of that topic. */
  lemma PopularSteps(env: Services)
    requires env.topQuestions(QuestionCount).Success? && |env.topQuestions(QuestionCount).value| > 0
    requires Summarize(env.topQuestions(QuestionCount).value, env.generate).result.Success?
    ensures var questions := env.topQuestions(QuestionCount).value;
      var s := Summarize(questions, env.generate);
      var t := TopicInsight(s.result.value, InsightTopK, env);
      PopularInsight(env).calls == [FetchTopQuestions(QuestionCount)] + s.calls + t.calls
      && (PopularInsight(env).result.Success? ==> PopularInsight(env).result.value == Popular(t.result.value, questions))
  {
  }

  /** A popular topic analyses exactly the questions fetched (at most ten
      were asked for), its topic is the trimmed summary of them, and the
      topic was answered from seven hits without a paper filter. */
  lemma PopularSpec(env: Services)
    requires PopularInsight(env).result.Success?
    ensures var p := PopularInsight(env).result.value;
      var questions := env.topQuestions(10).value;
      var topic := JsTrim(env.generate(TopicPrompt(questions)).value);
      env.topQuestions(10).Success? && |questions| > 0
      && p.questionsAnalyzed == questions
      && p.insight.topic == topic
      && |PopularInsight(env).calls| >= 3
      && PopularInsight(env).calls[0] == FetchTopQuestions(10)
      && PopularInsight(env).calls[1] == Generate(TopicPrompt(questions))
      && PopularInsight(env).calls[2] == Retrieve(topic, 7.0, None)
  {
    var questions := env.topQuestions(QuestionCount).value;
    var s := Summarize(questions, env.generate);
    PopularSteps(env);
    var topic := s.result.value;
    var t := TopicInsight(topic, InsightTopK, env);
    TopicInsightStarts(topic, InsightTopK, env);
    Heads(FetchTopQuestions(10), s.calls, t.calls);
  }

  lemma Heads(a: Call, s: seq<Call>, t: seq<Call>)
    requires |s| == 1 && |t| >= 1
    ensures var c := [a] + s + t;
      |c| >= 3 && c[0] == a && c[1] == s[0] && c[2] == t[0]
  {
  }
}
