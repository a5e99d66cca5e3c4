/** The prompt serialiser: XML-style escaping and the layout of the prompt
    sent to the language model. */
module Prompt {
  import opened Wrappers
  import opened Strings
  import Context
  import Records

  // ---------------------------------------------------------------------
  // Escaping

  /** `s.replace(/c/g, rep)` */
  function ReplaceAll(s: string, c: char, rep: string): (r: string)
    ensures c !in rep ==> c !in r
    ensures c !in s ==> r == s
  {
    if |s| == 0 then ""
    else (if s[0] == c then rep else [s[0]]) + ReplaceAll(s[1..], c, rep)
  }

  /** Global replacements applied one after the other. */
  function ReplaceChain(s: string, rules: seq<(char, string)>): string
    decreases |rules|
  {
    if |rules| == 0 then s
    else ReplaceChain(ReplaceAll(s, rules[0].0, rules[0].1), rules[1..])
  }

  /** The replacements of `escapeXml`, in its order: `&` first, so that the
      ampersands of the later entities are not escaped again. */
  const EscapeRules: seq<(char, string)> := [
    ('&', "&amp;"), ('<', "&lt;"), ('>', "&gt;"), ('"', "&quot;"), ('\'', "&apos;")
  ]

  /** `escapeXml` */
  function EscapeXml(s: string): string {
    ReplaceChain(s, EscapeRules)
  }

  /** The entity a single character becomes. */
  function EscapeChar(c: char): string {
    if c == '&' then "&amp;"
    else if c == '<' then "&lt;"
    else if c == '>' then "&gt;"
    else if c == '"' then "&quot;"
    else if c == '\'' then "&apos;"
    else [c]
  }

  /** Character-by-character escaping, the reference the chain of
      replacements is compared with. */
  function EscapeEach(s: string): string {
    if |s| == 0 then "" else EscapeChar(s[0]) + EscapeEach(s[1..])
  }

  /** The characters that may not appear in escaped text at all. */
  predicate IsMarkup(c: char) {
    c == '<' || c == '>' || c == '"' || c == '\''
  }

  predicate IsSpecial(c: char) {
    c == '&' || IsMarkup(c)
  }

  lemma {:induction false} ReplaceAllConcat(a: string, b: string, c: char, rep: string)
    ensures ReplaceAll(a + b, c, rep) == ReplaceAll(a, c, rep) + ReplaceAll(b, c, rep)
  {
    if |a| == 0 {
      assert a + b == b;
    } else {
      assert (a + b)[1..] == a[1..] + b;
      ReplaceAllConcat(a[1..], b, c, rep);
    }
  }

  lemma {:induction false} ReplaceChainConcat(a: string, b: string, rules: seq<(char, string)>)
    ensures ReplaceChain(a + b, rules) == ReplaceChain(a, rules) + ReplaceChain(b, rules)
    decreases |rules|
  {
    if |rules| > 0 {
      ReplaceAllConcat(a, b, rules[0].0, rules[0].1);
      ReplaceChainConcat(ReplaceAll(a, rules[0].0, rules[0].1),
        ReplaceAll(b, rules[0].0, rules[0].1), rules[1..]);
    }
  }

  lemma {:induction false} ReplaceChainUntouched(s: string, rules: seq<(char, string)>)
    requires forall k | 0 <= k < |rules| :: rules[k].0 !in s
    ensures ReplaceChain(s, rules) == s
    decreases |rules|
  {
    if |rules| > 0 {
      assert rules[0].0 !in s;
      ReplaceChainUntouched(s, rules[1..]);
    }
  }

  /** The replacement of the first rule that targets `x`, or `x` itself. */
  function FirstReplacement(x: char, rules: seq<(char, string)>): string {
    if |rules| == 0 then [x]
    else if rules[0].0 == x then rules[0].1
    else FirstReplacement(x, rules[1..])
  }

  /** No replacement introduces a character a later rule targets. */
  predicate NoLaterTarget(rules: seq<(char, string)>) {
    forall j, k | 0 <= j < k < |rules| :: rules[k].0 !in rules[j].1
  }

  lemma {:induction false} ReplaceChainSingle(x: char, rules: seq<(char, string)>)
    requires NoLaterTarget(rules)
    ensures ReplaceChain([x], rules) == FirstReplacement(x, rules)
    decreases |rules|
  {
    if |rules| > 0 {
      var (c, rep) := rules[0];
      assert [x][1..] == [];
      assert ReplaceAll([x], c, rep) == (if x == c then rep else [x]);
      if x == c {
        forall k | 0 <= k < |rules[1..]|
          ensures rules[1..][k].0 !in rep
        {
          assert rules[1..][k] == rules[k + 1];
        }
        ReplaceChainUntouched(rep, rules[1..]);
      } else {
        ReplaceChainSingle(x, rules[1..]);
      }
    }
  }

  lemma EscapeRulesNoLaterTarget()
    ensures NoLaterTarget(EscapeRules)
  {
  }

  lemma EscapeRulesFirst(x: char)
    ensures FirstReplacement(x, EscapeRules) == EscapeChar(x)
  {
    var r := EscapeRules;
    var r1 := [('<', "&lt;"), ('>', "&gt;"), ('"', "&quot;"), ('\'', "&apos;")];
    var r2 := [('>', "&gt;"), ('"', "&quot;"), ('\'', "&apos;")];
    var r3 := [('"', "&quot;"), ('\'', "&apos;")];
    var r4 := [('\'', "&apos;")];
    assert r[1..] == r1 && r1[1..] == r2 && r2[1..] == r3 && r3[1..] == r4 && r4[1..] == [];
    assert FirstReplacement(x, r4) == if x == '\'' then "&apos;" else [x];
    assert FirstReplacement(x, r3) == if x == '"' then "&quot;" else FirstReplacement(x, r4);
    assert FirstReplacement(x, r2) == if x == '>' then "&gt;" else FirstReplacement(x, r3);
    assert FirstReplacement(x, r1) == if x == '<' then "&lt;" else FirstReplacement(x, r2);
  }

  /** The chain of replacements escapes each character on its own: no
      entity produced by an earlier replacement is touched by a later one. */
  lemma {:induction false} EscapeXmlIsPerChar(s: string)
    ensures EscapeXml(s) == EscapeEach(s)
  {
    if |s| > 0 {
      assert s == [s[0]] + s[1..];
      ReplaceChainConcat([s[0]], s[1..], EscapeRules);
      EscapeRulesNoLaterTarget();
      ReplaceChainSingle(s[0], EscapeRules);
      EscapeRulesFirst(s[0]);
      EscapeXmlIsPerChar(s[1..]);
    }
  }

  /** The five entities, recognised at the front of a string. */
  function EntityAt(s: string): Option<(char, nat)> {
    if StartsWith(s, "&amp;") then Some(('&', 5))
    else if StartsWith(s, "&lt;") then Some(('<', 4))
    else if StartsWith(s, "&gt;") then Some(('>', 4))
    else if StartsWith(s, "&quot;") then Some(('"', 6))
    else if StartsWith(s, "&apos;") then Some(('\'', 6))
    else None
  }

  /** Decodes the five entities; the inverse of escaping. */
  function UnescapeXml(s: string): string
    decreases |s|
  {
    if |s| == 0 then ""
    else match EntityAt(s)
      case Some((c, n)) => [c] + UnescapeXml(s[n..])
      case None => [s[0]] + UnescapeXml(s[1..])
  }

  lemma DiffersAt(s: string, p: string, i: nat)
    requires i < |s| && i < |p| && s[i] != p[i]
    ensures !StartsWith(s, p)
  {
    if |p| <= |s| {
      assert s[..|p|][i] == s[i];
    }
  }

  lemma StartsWithPrefix(p: string, rest: string)
    ensures StartsWith(p + rest, p)
  {
    assert (p + rest)[..|p|] == p;
  }

  /** The entity an escaped character begins with is recognised as that
      character; an unescaped character begins no entity. */
  lemma EntityOfEscape(x: char, rest: string)
    ensures IsSpecial(x) ==> EntityAt(EscapeChar(x) + rest) == Some((x, |EscapeChar(x)|))
    ensures !IsSpecial(x) ==> EntityAt(EscapeChar(x) + rest).None?
  {
    var s := EscapeChar(x) + rest;
    StartsWithPrefix(EscapeChar(x), rest);
    if x == '&' {
    } else if x == '<' {
      DiffersAt(s, "&amp;", 1);
    } else if x == '>' {
      DiffersAt(s, "&amp;", 1);
      DiffersAt(s, "&lt;", 1);
    } else if x == '"' {
      DiffersAt(s, "&amp;", 1);
      DiffersAt(s, "&lt;", 1);
      DiffersAt(s, "&gt;", 1);
    } else if x == '\'' {
      DiffersAt(s, "&amp;", 2);
      DiffersAt(s, "&lt;", 1);
      DiffersAt(s, "&gt;", 1);
      DiffersAt(s, "&quot;", 1);
    } else {
      DiffersAt(s, "&amp;", 0);
      DiffersAt(s, "&lt;", 0);
      DiffersAt(s, "&gt;", 0);
      DiffersAt(s, "&quot;", 0);
      DiffersAt(s, "&apos;", 0);
    }
  }

  lemma UnescapeStep(x: char, rest: string)
    ensures UnescapeXml(EscapeChar(x) + rest) == [x] + UnescapeXml(rest)
  {
    var e := EscapeChar(x);
    EntityOfEscape(x, rest);
    assert (e + rest)[|e|..] == rest;
    if !IsSpecial(x) {
      assert (e + rest)[0] == x;
    }
  }

  lemma {:induction false} EscapeEachRoundTrip(s: string)
    ensures UnescapeXml(EscapeEach(s)) == s
  {
    if |s| > 0 {
      UnescapeStep(s[0], EscapeEach(s[1..]));
      EscapeEachRoundTrip(s[1..]);
      assert s == [s[0]] + s[1..];
    }
  }

  /** Escaping loses nothing: decoding the entities gives the input back. */
  lemma EscapeXmlRoundTrip(s: string)
    ensures UnescapeXml(EscapeXml(s)) == s
  {
    EscapeXmlIsPerChar(s);
    EscapeEachRoundTrip(s);
  }

  /** In escaped text every `&` starts one of the five entities. */
  predicate AmpersandsAreEntities(s: string) {
    forall i | 0 <= i < |s| && s[i] == '&' :: EntityAt(s[i..]).Some?
  }

  lemma {:induction false} EscapeEachShape(s: string)
    ensures forall i | 0 <= i < |EscapeEach(s)| :: !IsMarkup(EscapeEach(s)[i])
    ensures AmpersandsAreEntities(EscapeEach(s))
  {
    if |s| > 0 {
      var e, rest := EscapeChar(s[0]), EscapeEach(s[1..]);
      var r := e + rest;
      EscapeEachShape(s[1..]);
      EntityOfEscape(s[0], rest);
      forall i | 0 <= i < |r|
        ensures !IsMarkup(r[i])
        ensures r[i] == '&' ==> EntityAt(r[i..]).Some?
      {
        if i >= |e| {
          assert r[i] == rest[i - |e|];
          assert r[i..] == rest[i - |e|..];
        } else {
          assert r[i] == e[i];
        }
      }
    }
  }

  /** The escaped text holds no `<`, `>`, `"` or `'`, and each `&` in it
      begins an entity. */
  lemma EscapeXmlShape(s: string)
    ensures forall i | 0 <= i < |EscapeXml(s)| :: !IsMarkup(EscapeXml(s)[i])
    ensures AmpersandsAreEntities(EscapeXml(s))
  {
    EscapeXmlIsPerChar(s);
    EscapeEachShape(s);
  }

  /** Text without any of the five special characters is left as is. */
  lemma EscapeXmlIdentity(s: string)
    requires '&' !in s && '<' !in s && '>' !in s && '"' !in s && '\'' !in s
    ensures EscapeXml(s) == s
  {
    ReplaceChainUntouched(s, EscapeRules);
  }

  // ---------------------------------------------------------------------
  // Layout

  const Instructions: seq<string> := [
    "You are a research assistant. Answer the question using ONLY the provided context.",
    "Cite sources explicitly in the form [paper_title, section, page].",
    "If the answer is not covered by the context, say you are uncertain."
  ]

  /** The lines between the last chunk and the question. */
  const Footer: seq<string> := ["</context>", ""] + Instructions + [""]

  /** `${page ?? ''}`: unlike the citation key, page 0 prints as `0`. */
  function PageAttr(page: Option<int>): string {
    if page.None? then "" else IntToString(page.value)
  }

  /** The pieces of the `<meta .../>` line; the paper id is inserted
      without escaping. */
  function MetaParts(s: Context.Source): (r: seq<string>)
    ensures |r| == 9
  {
    ["<meta paper_id=\"", s.paperId,
     "\" paper_title=\"", EscapeXml(Records.OrEmpty(s.paperTitle)),
     "\" section=\"", EscapeXml(Records.OrEmpty(s.section)),
     "\" page=\"", PageAttr(s.page), "\"/>"]
  }

  function MetaLine(s: Context.Source): string {
    Join(MetaParts(s), "")
  }

  function ChunkBlock(e: Context.Entry): string {
    Join(["<chunk>", MetaLine(e.source), EscapeXml(e.text), "</chunk>"], "\n")
  }

  function Blocks(items: seq<Context.Entry>): (r: seq<string>)
    ensures |r| == |items|
    ensures forall k | 0 <= k < |items| :: r[k] == ChunkBlock(items[k])
  {
    seq(|items|, k requires 0 <= k < |items| => ChunkBlock(items[k]))
  }

  function QuestionLine(question: string): string {
    "<question>" + EscapeXml(question) + "</question>"
  }

  /** The lines of the prompt: the context tag, one block per item in input
      order, the footer, and the escaped question last. */
  function PromptLines(question: string, items: seq<Context.Entry>): (r: seq<string>)
    ensures |r| == |items| + |Footer| + 2
  {
    ["<context>"] + Blocks(items) + Footer + [QuestionLine(question)]
  }

  /** `assemblePrompt(question, context)` */
  function AssemblePrompt(question: string, items: seq<Context.Entry>): string {
    Join(PromptLines(question, items), "\n")
  }

  /** Lines framed by a head line and a last line: the joined text starts
      with the head, ends with the last line and holds every middle line. */
  lemma FramedJoin(head: string, middle: seq<string>, tail: seq<string>, last: string, sep: string)
    ensures StartsWith(Join([head] + middle + tail + [last], sep), head)
    ensures EndsWith(Join([head] + middle + tail + [last], sep), last)
    ensures forall k | 0 <= k < |middle| :: ([head] + middle + tail + [last])[k + 1] == middle[k]
    ensures forall k | 0 <= k < |middle| :: Contains(Join([head] + middle + tail + [last], sep), middle[k])
  {
    var lines := [head] + middle + tail + [last];
    assert lines[0] == head;
    assert lines[|lines| - 1] == last;
    JoinEnds(lines, sep);
    forall k | 0 <= k < |middle|
      ensures lines[k + 1] == middle[k]
      ensures Contains(Join(lines, sep), middle[k])
    {
      assert lines[k + 1] == middle[k];
      JoinContains(lines, sep, k + 1);
    }
  }

  /** The prompt opens with the context tag, ends with the escaped question
      and holds the block of every item, the blocks in item order. */
  lemma PromptShape(question: string, items: seq<Context.Entry>)
    ensures StartsWith(AssemblePrompt(question, items), "<context>")
    ensures EndsWith(AssemblePrompt(question, items), QuestionLine(question))
    ensures forall k | 0 <= k < |items| :: PromptLines(question, items)[k + 1] == ChunkBlock(items[k])
    ensures forall k | 0 <= k < |items| :: Contains(AssemblePrompt(question, items), ChunkBlock(items[k]))
  {
    FramedJoin("<context>", Blocks(items), Footer, QuestionLine(question), "\n");
  }

  /** The title attribute of a chunk's meta line holds the escaped title. */
  lemma MetaHasTitle(s: Context.Source)
    requires s.paperTitle.Some?
    ensures Contains(MetaLine(s), EscapeXml(s.paperTitle.value))
  {
    assert Records.OrEmpty(s.paperTitle) == s.paperTitle.value;
    JoinContains(MetaParts(s), "", 3);
  }

  /** The escaped title of every item with a title occurs in the prompt. */
  lemma PromptHasTitle(question: string, items: seq<Context.Entry>, k: nat)
    requires k < |items| && items[k].source.paperTitle.Some?
    ensures Contains(AssemblePrompt(question, items), EscapeXml(items[k].source.paperTitle.value))
  {
    var t := EscapeXml(items[k].source.paperTitle.value);
    var block := ChunkBlock(items[k]);
    PromptShape(question, items);
    MetaHasTitle(items[k].source);
    JoinContains(["<chunk>", MetaLine(items[k].source), EscapeXml(items[k].text), "</chunk>"], "\n", 1);
    ContainsTrans(block, MetaLine(items[k].source), t);
    ContainsTrans(AssemblePrompt(question, items), block, t);
  }

  /** The context tag and the question line occur in the prompt. */
  lemma PromptHasTags(question: string, items: seq<Context.Entry>)
    ensures Contains(AssemblePrompt(question, items), "<context>")
    ensures Contains(AssemblePrompt(question, items), QuestionLine(question))
  {
    var lines := PromptLines(question, items);
    JoinContains(lines, "\n", 0);
    JoinContains(lines, "\n", |lines| - 1);
  }

  lemma CleanQuestionLine(q: string)
    requires '&' !in q && '<' !in q && '>' !in q && '"' !in q && '\'' !in q
    ensures QuestionLine(q) == "<question>" + q + "</question>"
  {
    EscapeXmlIdentity(q);
  }

  function ExampleItem(title: string): Context.Entry {
    Context.Entry("Transformer uses self-attention.",
      Context.Source("p3", Some(title), Some("Methodology"), Some(3), Some(12)))
  }

  lemma ExampleQuestionClean(question: string)
    requires question == "What is used?"
    ensures '&' !in question && '<' !in question && '>' !in question
    ensures '"' !in question && '\'' !in question
  {
  }

  lemma ExampleQuestionLine(question: string)
    requires question == "What is used?"
    ensures "<question>" + question + "</question>" == "<question>What is used?</question>"
  {
  }

  lemma ExampleTitleClean(title: string)
    requires title == "Attention is All You Need"
    ensures '&' !in title && '<' !in title && '>' !in title
    ensures '"' !in title && '\'' !in title
  {
  }

  lemma ExampleHasQuestion(question: string, items: seq<Context.Entry>)
    requires question == "What is used?"
    ensures Contains(AssemblePrompt(question, items), "<question>What is used?</question>")
  {
    ExampleQuestionClean(question);
    ExampleQuestionLine(question);
    CleanQuestionLine(question);
    PromptHasTags(question, items);
  }

  lemma ExampleHasTitle(question: string, title: string)
    requires title == "Attention is All You Need"
    ensures Contains(AssemblePrompt(question, [ExampleItem(title)]), "Attention is All You Need")
  {
    ExampleTitleClean(title);
    EscapeXmlIdentity(title);
    PromptHasTitle(question, [ExampleItem(title)], 0);
  }

  /** The prompt for the backend's unit-test item contains the context tag,
      the paper title and the question line. */
  lemma PromptExample(question: string, title: string)
    requires question == "What is used?" && title == "Attention is All You Need"
    ensures var p := AssemblePrompt(question, [ExampleItem(title)]);
            Contains(p, "<context>") && Contains(p, "Attention is All You Need")
            && Contains(p, "<question>What is used?</question>")
  {
    PromptHasTags(question, [ExampleItem(title)]);
    ExampleHasQuestion(question, [ExampleItem(title)]);
    ExampleHasTitle(question, title);
  }
}
